/** initialize_aggregate and ffi_get_struct_offsets of prep_cif.c, on ffi_types that share their parts. */
module PrepCif {
  import opened FfiTypes
  import opened Layout
  import opened TypeGraphs

  datatype Status = Ok | BadTypedef | BadAbi

  /** The first i fields have been placed. */
  ghost predicate Placed(arg: FfiType, offsets: array?<nat>, before: seq<nat>, i: nat)
    reads arg, offsets, arg.elements
  {
    && i <= |arg.elements|
    && arg.size == EndNow(arg.elements[..i]) && arg.alignment == AlignNow(arg.elements[..i])
    && (forall k :: 0 <= k < i ==> arg.elements[k].size != 0)
    && (i > 0 ==> arg.size > 0 && arg.alignment > 0)
    && (offsets != null ==> i <= |before| && offsets[..] == OffsetsNow(arg.elements[..i]) + before[i..])
  }

  /** One turn of the loop, for a field that has its size. */
  method PlaceField(arg: FfiType, offsets: array?<nat>, i: nat, ghost before: seq<nat>, ghost nodes: set<FfiType>,
                    ghost open: set<FfiType>)
    requires Closed(nodes) && arg in nodes && AllSound(nodes, open) && arg in open && arg.code == STRUCT
    requires arg !in arg.elements && (offsets != null ==> |arg.elements| <= |before|)
    requires Placed(arg, offsets, before, i) && i < |arg.elements|
    requires arg.elements[i].size != 0 && arg.elements[i].alignment != 0
    modifies arg, offsets
    ensures Placed(arg, offsets, before, i + 1) && AllSound(nodes, open)
  {
    hide AlignTo, AlignUp, SizeOf, AlignOf, Inhabited, StartsWithScalar, EndNow, AlignNow, OffsetsNow;
    var e := arg.elements[i];
    NextNow(arg.elements, i);
    arg.size := AlignTo(arg.size, e.alignment);
    if offsets != null {
      offsets[i] := arg.size;
      assert offsets[..] == OffsetsNow(arg.elements[..i + 1]) + before[i + 1..];
    }
    arg.size := arg.size + e.size;
    arg.alignment := Max(arg.alignment, e.alignment);
    NextNow(arg.elements, i);
  }

  lemma NextNow(es: seq<FfiType>, i: nat)
    requires i < |es|
    ensures EndNow(es[..i + 1]) == AlignTo(EndNow(es[..i]), es[i].alignment) + es[i].size
    ensures AlignNow(es[..i + 1]) == Max(AlignNow(es[..i]), es[i].alignment)
    ensures OffsetsNow(es[..i + 1]) == OffsetsNow(es[..i]) + [AlignTo(EndNow(es[..i]), es[i].alignment)]
  {
    assert es[..i + 1][..i] == es[..i];
  }

  /** What has a size is left alone, and so is what is no part of the type. */
  twostate predicate OnlyParts(arg: FfiType, nodes: set<FfiType>)
    requires Closed(nodes) && arg in nodes
    reads nodes
  {
    forall n :: n in nodes && n != arg && (old(n.size) != 0 || !IsPart(n, arg, nodes)) ==> unchanged(n)
  }

  /** Apart from those in but, sizes have come to what is in kept and to what passes. */
  ghost predicate Became(sized: set<FfiType>, kept: set<FfiType>, but: set<FfiType>, nodes: set<FfiType>)
    requires Closed(nodes)
    reads nodes
  {
    forall n :: n in nodes && n !in but ==>
      && (n in sized || n in kept ==> n.size != 0)
      && (n.size != 0 ==> n in kept || Passes(n, sized, nodes))
  }

  ghost predicate NoneOpen(arg: FfiType, open: set<FfiType>, nodes: set<FfiType>)
    requires Closed(nodes) && arg in nodes
  {
    forall n :: n in open ==> n in nodes && !IsPart(n, arg, nodes)
  }

  lemma FieldNotOpen(arg: FfiType, i: nat, open: set<FfiType>, nodes: set<FfiType>)
    requires Closed(nodes) && arg in nodes && i < |arg.elements| && NoneOpen(arg, open, nodes)
    ensures NoneOpen(arg.elements[i], open + {arg}, nodes) && arg !in arg.elements
  {
    hide IsPart;
    forall n | n in open + {arg} ensures n in nodes && !IsPart(n, arg.elements[i], nodes) {
      if n == arg {
        NotInItself(arg, i, nodes);
      } else if IsPart(n, arg.elements[i], nodes) {
        FieldsParts(n, arg, i, nodes);
      }
    }
    NotOwnField(arg, nodes);
  }

  lemma NotOwnField(arg: FfiType, nodes: set<FfiType>)
    requires Closed(nodes) && arg in nodes
    ensures arg !in arg.elements
  {
    forall i | 0 <= i < |arg.elements| ensures arg.elements[i] != arg {
      NotInItself(arg, i, nodes);
    }
  }

  /** While the type is worked on, the same fields pass as before. */
  lemma SoFar(arg: FfiType, i: nat, sized: set<FfiType>, nodes: set<FfiType>)
    requires Closed(nodes) && arg in nodes && i < |arg.elements| && Became(sized, {}, {arg}, nodes)
    ensures Grew(arg.elements[i], sized, Sized(nodes), nodes)
  {
    hide Passes, IsPart;
    NotInItself(arg, i, nodes);
  }

  lemma PartGrew(m: FfiType, n: FfiType, a: set<FfiType>, b: set<FfiType>, nodes: set<FfiType>)
    requires Closed(nodes) && m in nodes && n in nodes && IsPart(m, n, nodes) && Grew(n, a, b, nodes)
    ensures Passes(m, a, nodes) == Passes(m, b, nodes)
  {
    hide Passes, IsPart;
    forall l | l in nodes && IsPart(l, m, nodes) ensures (l in a ==> l in b) && (l in b ==> Passes(l, a, nodes)) {
      PartsParts(l, m, n, nodes);
    }
    PassesAlike(m, a, b, nodes);
  }

  /** Makes sure a field has a size. */
  method Prepare(e: FfiType, ghost nodes: set<FfiType>, ghost open: set<FfiType>) returns (ok: bool)
    requires Closed(nodes) && e in nodes && AllSound(nodes, open) && NoneOpen(e, open, nodes)
    modifies nodes
    ensures ok == Passes(e, old(Sized(nodes)), nodes)
    ensures AllSound(nodes, open) && (ok ==> e.size != 0 && e.alignment != 0)
    ensures Became(old(Sized(nodes)), if ok then {} else Kept(e, old(Sized(nodes)), nodes), {}, nodes)
    ensures forall n :: n in nodes && (old(n.size) != 0 || !IsPart(n, e, nodes)) ==> unchanged(n)
    decreases e.shape, 3
  {
    hide AllSound, IsPart, Kept, Passes, AllPass, LeftAt, FirstRefused;
    ghost var sized := Sized(nodes);
    SelfPart(e, nodes);
    if e.size == 0 {
      Unsized(e, open, nodes);
      PassesUnsized(e, sized, nodes);
      assert sized - {e} == sized;
      var inner := InitializeAggregate(e, null, nodes, open);
      ok := inner == Ok;
    } else {
      SizedPasses(e, sized, nodes);
      BecameNothing(nodes);
      ok := true;
    }
    if ok { SoundField(e, open, nodes); }
  }

  lemma Unsized(e: FfiType, open: set<FfiType>, nodes: set<FfiType>)
    requires Closed(nodes) && e in nodes && AllSound(nodes, open) && e !in open && e.size == 0
    ensures e.code == STRUCT && AllSound(nodes, open + {e})
  {
    assert e.Sound(open);
    forall n | n in nodes && (n !in open + {e} || n.code != STRUCT) ensures n.Sound(open + {e}) {
      assert n.Sound(open);
    }
  }

  lemma SizedPasses(e: FfiType, sized: set<FfiType>, nodes: set<FfiType>)
    requires Closed(nodes) && e in nodes && e in sized
    ensures Passes(e, sized, nodes)
  {
  }

  lemma BecameNothing(nodes: set<FfiType>)
    requires Closed(nodes)
    ensures Became(Sized(nodes), {}, {}, nodes)
  {
    forall n | n in nodes && n.size != 0 ensures Passes(n, Sized(nodes), nodes) {
      assert n in Sized(nodes);
    }
  }

  lemma SelfPart(e: FfiType, nodes: set<FfiType>)
    requires Closed(nodes) && e in nodes
    ensures IsPart(e, e, nodes)
  {
  }

  lemma SoundField(e: FfiType, open: set<FfiType>, nodes: set<FfiType>)
    requires Closed(nodes) && e in nodes && AllSound(nodes, open) && e !in open && e.size != 0
    ensures e.alignment != 0
  {
    assert e.Sound(open);
  }

  /** One turn of the loop; sized are the types with a size before the loop. */
  method AddField(arg: FfiType, offsets: array?<nat>, i: nat, ghost before: seq<nat>, ghost sized: set<FfiType>,
                  ghost nodes: set<FfiType>,
                  ghost open: set<FfiType>)
      returns (ok: bool)
    requires Closed(nodes) && arg in nodes && arg in open && AllSound(nodes, open) && arg !in sized
    requires arg.code == STRUCT
    requires Became(sized, {}, {arg}, nodes)
    requires Placed(arg, offsets, before, i) && i < |arg.elements| && (offsets != null ==> |arg.elements| <= |before|)
    requires NoneOpen(arg.elements[i], open, nodes) && arg !in arg.elements
    modifies nodes, offsets
    ensures AllSound(nodes, open) && ok == Passes(arg.elements[i], sized, nodes)
    ensures Placed(arg, offsets, before, if ok then i + 1 else i)
    ensures Became(sized, if ok then {} else Kept(arg.elements[i], sized, nodes), {arg}, nodes)
    ensures OnlyParts(arg, nodes)
    decreases arg.shape, 0
  {
    hide AllSound, AlignTo, AlignUp, Max, IsPart, Passes, Kept, EndNow, OffsetsNow, AlignNow;
    var e := arg.elements[i];
    ghost var now := Sized(nodes);
    assert e.shape == arg.shape.elements[i];
    SoFar(arg, i, sized, nodes);
    PassesAlike(e, sized, now, nodes);
    KeptAlike(e, sized, now, nodes);
    assert Between(sized, now, arg, nodes);
    ok := Prepare(e, nodes, open);
    Compose(arg, i, sized, now, if ok then {} else Kept(e, sized, nodes), nodes);
    forall n | n in nodes && IsPart(n, e, nodes) ensures IsPart(n, arg, nodes) {
      FieldsParts(n, arg, i, nodes);
    }
    assert forall k :: 0 <= k < i ==> unchanged(arg.elements[k]);
    if ok {
      PlaceField(arg, offsets, i, before, nodes, open);
    }
  }

  ghost predicate Between(a: set<FfiType>, b: set<FfiType>, but: FfiType, nodes: set<FfiType>)
    requires Closed(nodes)
  {
    forall n :: n in nodes && n != but ==> (n in a ==> n in b) && (n in b ==> Passes(n, a, nodes))
  }

  lemma Compose(arg: FfiType, i: nat, a: set<FfiType>, b: set<FfiType>, kept: set<FfiType>, nodes: set<FfiType>)
    requires Closed(nodes) && arg in nodes && i < |arg.elements| && Between(a, b, arg, nodes)
    requires Grew(arg.elements[i], a, b, nodes) && Became(b, kept, {}, nodes)
    requires forall n :: n in nodes && n.size != 0 && !IsPart(n, arg.elements[i], nodes) ==> n in b
    ensures Became(a, kept, {arg}, nodes)
  {
    hide Passes, IsPart;
    forall n | n in nodes && n != arg && n.size != 0 ensures n in kept || Passes(n, a, nodes) {
      if n !in b && n !in kept { PartGrew(n, arg.elements[i], a, b, nodes); }
    }
  }

  lemma ScalarStays(arg: FfiType, open: set<FfiType>, nodes: set<FfiType>)
    requires Closed(nodes) && arg in nodes && AllSound(nodes, open + {arg}) && arg.code != STRUCT
    ensures AllSound(nodes, open)
  {
    forall n | n in nodes && (n !in open || n.code != STRUCT) ensures n.Sound(open) {
      assert n.Sound(open + {arg});
      if n.code == STRUCT && n.size != 0 {
        forall e | e in n.elements && e !in open ensures Inhabited(n.shape) ==> e.size != 0 {
          if e == arg { assert e.Sound(open + {arg}); }
        }
      }
    }
  }

  /** What the loop leaves in a struct when k fields have been placed. */
  ghost predicate LeftAt(arg: FfiType, k: nat)
    reads arg, arg.elements
  {
    && k <= |arg.elements| && (forall i :: 0 <= i < k ==> arg.elements[i].size != 0)
    && arg.alignment == AlignNow(arg.elements[..k])
    && arg.size == if k == |arg.elements| then AlignTo(EndNow(arg.elements), AlignNow(arg.elements))
       else EndNow(arg.elements[..k])
  }

  /** When a struct is done with, it is as sound as the others. */
  lemma SoundAgain(arg: FfiType, nodes: set<FfiType>, open: set<FfiType>)
    requires Closed(nodes) && arg in nodes && arg !in open && AllSound(nodes, open + {arg}) && arg.Sound(open)
    requires Inhabited(arg.shape) ==> arg.size != 0
    ensures AllSound(nodes, open)
  {
    forall n | n in nodes && (n !in open || n.code != STRUCT) ensures n.Sound(open) {
      if n != arg {
        assert n.Sound(open + {arg});
        if n.code == STRUCT && Inhabited(n.shape) && arg in n.elements {
          StructInhabited(n.shape);
          var i :| 0 <= i < |n.elements| && n.elements[i] == arg;
          assert Inhabited(n.shape.elements[i]);
        }
      }
    }
  }

  lemma FirstStarts(arg: FfiType, nodes: set<FfiType>, open: set<FfiType>)
    requires Closed(nodes) && arg in nodes && AllSound(nodes, open) && arg.elements != []
    requires arg.elements[0] !in open && arg.elements[0].size != 0
    ensures StartsWithScalar(arg.shape)
  {
    var e := arg.elements[0];
    assert e.shape == arg.shape.elements[0];
    assert e.Sound(open);
  }

  lemma NotOpen(arg: FfiType, open: set<FfiType>, nodes: set<FfiType>)
    requires Closed(nodes) && arg in nodes && NoneOpen(arg, open, nodes)
    ensures arg !in open && forall i :: 0 <= i < |arg.elements| ==> arg.elements[i] !in open + {arg}
  {
    hide IsPart;
    SelfPart(arg, nodes);
    forall i | 0 <= i < |arg.elements| ensures arg.elements[i] !in open + {arg} {
      FieldNotOpen(arg, i, open, nodes);
      SelfPart(arg.elements[i], nodes);
    }
  }

  lemma ScalarsSized(nodes: set<FfiType>, open: set<FfiType>)
    requires Closed(nodes) && AllSound(nodes, open)
    ensures forall n :: n in nodes && n.code != STRUCT ==> n in Sized(nodes)
  {
    forall n | n in nodes && n.code != STRUCT ensures n in Sized(nodes) {
      ScalarSized(n, open, nodes);
    }
  }

  /** A refused struct is no less sound: it is none that ought to have been accepted. */
  lemma Refused(arg: FfiType, sized: set<FfiType>, nodes: set<FfiType>, open: set<FfiType>)
    requires Closed(nodes) && arg in nodes && arg.code == STRUCT && AllSound(nodes, open + {arg})
    requires NoneOpen(arg, open, nodes)
    requires !AllPass(arg, sized, nodes) && arg !in sized && forall n :: n in nodes && n.code != STRUCT ==> n in sized
    requires arg.size != 0 ==> arg.alignment > 0 && arg.elements != [] && arg.elements[0].size != 0
    ensures AllSound(nodes, open)
  {
    hide Passes, AllPass, AllSound;
    NotOpen(arg, open, nodes);
    if arg.size != 0 { FirstStarts(arg, nodes, open + {arg}); }
    if Inhabited(arg.shape) {
      InhabitedPasses(arg, sized, nodes);
      PassesUnsized(arg, sized, nodes);
      assert false;
    }
    SoundAgain(arg, nodes, open);
  }

  lemma PassesUnsized(n: FfiType, sized: set<FfiType>, nodes: set<FfiType>)
    requires Closed(nodes) && n in nodes && n !in sized
    ensures Passes(n, sized, nodes) == AllPass(n, sized, nodes)
  {
  }

  /** If no struct in it is empty, the struct has the layout of its type. */
  lemma Accepted(arg: FfiType, nodes: set<FfiType>, open: set<FfiType>)
    requires Closed(nodes) && arg in nodes && arg.code == STRUCT && AllSound(nodes, open + {arg})
    requires NoneOpen(arg, open, nodes)
    requires arg.elements != [] && forall i :: 0 <= i < |arg.elements| ==> arg.elements[i].size != 0
    requires LeftAt(arg, |arg.elements|) && arg.alignment > 0 && arg.size != 0
    ensures AllSound(nodes, open)
  {
    hide AllSound, Inhabited, AlignTo, End, MaxAlign;
    NotOpen(arg, open, nodes);
    FirstStarts(arg, nodes, open + {arg});
    if Inhabited(arg.shape) {
      StructInhabited(arg.shape);
      forall i | 0 <= i < |arg.elements| ensures arg.elements[i].IsLaidOut() {
        assert arg.elements[i].shape == arg.shape.elements[i];
        LaidOutField(arg.elements[i], open + {arg}, nodes);
      }
      LaidOutNow(arg, |arg.elements|);
      assert arg.elements[..|arg.elements|] == arg.elements;
    }
    SoundAgain(arg, nodes, open);
  }

  lemma LaidOutField(e: FfiType, open: set<FfiType>, nodes: set<FfiType>)
    requires Closed(nodes) && e in nodes && AllSound(nodes, open) && e !in open && e.size != 0 && Inhabited(e.shape)
    ensures e.IsLaidOut()
  {
    assert e.Sound(open);
  }

  lemma NothingNow(es: seq<FfiType>)
    requires es == []
    ensures EndNow(es) == AlignNow(es) == 0
  {
  }

  method Pad(arg: FfiType, ghost nodes: set<FfiType>, ghost open: set<FfiType>)
    requires Closed(nodes) && arg in nodes && AllSound(nodes, open) && arg in open && arg.code == STRUCT
    modifies arg
    ensures arg.size == AlignTo(old(arg.size), arg.alignment) && arg.alignment == old(arg.alignment)
    ensures AllSound(nodes, open)
  {
    arg.size := AlignTo(arg.size, arg.alignment);
  }

  /** The tail padding. */
  method Finish(arg: FfiType, offsets: array?<nat>, ghost before: seq<nat>, ghost nodes: set<FfiType>,
                ghost open: set<FfiType>)
      returns (status: Status)
    requires Closed(nodes) && arg in nodes && arg.code == STRUCT && arg !in arg.elements
    requires AllSound(nodes, open + {arg}) && NoneOpen(arg, open, nodes) && Placed(arg, offsets, before, |arg.elements|)
    modifies arg
    ensures LeftAt(arg, |arg.elements|)
    ensures status == if arg.size == 0 then BadTypedef else Ok
    ensures arg.size == 0 <==> arg.elements == []
    ensures AllSound(nodes, open + {arg}) && (status == Ok ==> AllSound(nodes, open))
  {
    hide AllSound, IsPart, EndNow, AlignNow;
    assert arg.elements[..|arg.elements|] == arg.elements;
    if arg.elements == [] { NothingNow(arg.elements); }
    Pad(arg, nodes, open + {arg});
    if arg.size == 0 {
      assert arg.elements == [];
      return BadTypedef;
    }
    Accepted(arg, nodes, open);
    return Ok;
  }

  /** What initialize_aggregate has done to a struct, when those in sized had a size before; k is the first field
      refused. */
  ghost predicate Done(arg: FfiType, status: Status, sized: set<FfiType>, nodes: set<FfiType>)
    requires Closed(nodes) && arg in nodes
    reads nodes
  {
    assert forall e :: e in arg.elements ==> e in nodes;
    && LeftAt(arg, FirstRefused(arg, 0, sized, nodes))
    && if AllPass(arg, sized, nodes) then status == Ok && arg.size != 0 && Became(sized, {}, {}, nodes)
       else status == BadTypedef && Became(sized, Kept(arg, sized, nodes), {}, nodes)
  }

  lemma RefusedAt(arg: FfiType, i: nat, sized: set<FfiType>, nodes: set<FfiType>)
    requires Closed(nodes) && arg in nodes && arg.code == STRUCT && i < |arg.elements| && arg !in sized
    requires forall k :: 0 <= k < i ==> Passes(arg.elements[k], sized, nodes)
    requires !Passes(arg.elements[i], sized, nodes)
    requires Became(sized, Kept(arg.elements[i], sized, nodes), {arg}, nodes)
    requires LeftAt(arg, i) && (arg.size != 0 <==> i > 0)
    ensures Done(arg, BadTypedef, sized, nodes)
  {
    hide Passes, IsPart;
    FirstRefusedIs(arg, i, sized, nodes);
    KeptAreParts(arg.elements[i], sized, nodes);
    NotInItself(arg, i, nodes);
  }

  lemma AllPlaced(arg: FfiType, status: Status, sized: set<FfiType>, nodes: set<FfiType>)
    requires Closed(nodes) && arg in nodes && arg.code == STRUCT && arg !in sized
    requires forall k :: 0 <= k < |arg.elements| ==> Passes(arg.elements[k], sized, nodes)
    requires Became(sized, {}, {arg}, nodes)
    requires LeftAt(arg, |arg.elements|) && (arg.size == 0 <==> arg.elements == [])
    requires status == if arg.size == 0 then BadTypedef else Ok
    ensures Done(arg, status, sized, nodes)
    ensures status == BadTypedef ==> !AllPass(arg, sized, nodes)
  {
    hide Passes;
    FirstRefusedIs(arg, |arg.elements|, sized, nodes);
    PassesUnsized(arg, sized, nodes);
  }

  method Clear(arg: FfiType, offsets: array?<nat>, ghost before: seq<nat>, ghost sized: set<FfiType>,
               ghost nodes: set<FfiType>,
               ghost open: set<FfiType>)
    requires Closed(nodes) && arg in nodes && AllSound(nodes, open) && arg in open && arg.code == STRUCT
    requires sized == Sized(nodes) - {arg} && (offsets != null ==> before == offsets[..])
    modifies arg
    ensures AllSound(nodes, open) && Placed(arg, offsets, before, 0) && Became(sized, {}, {arg}, nodes)
    ensures forall n :: n in nodes && n.code != STRUCT ==> n in sized
  {
    hide SizeOf, AlignOf, Inhabited, StartsWithScalar;
    ScalarsSized(nodes, open);
    arg.size, arg.alignment := 0, 0;
    Nothing(arg, offsets, before);
    BecameFirst(arg, sized, nodes);
  }

  /** The loop over the fields, up to the first one that is refused. */
  method PlaceFields(arg: FfiType, offsets: array?<nat>, ghost before: seq<nat>, ghost sized: set<FfiType>,
                     ghost nodes: set<FfiType>,
                     ghost open: set<FfiType>)
      returns (i: nat)
    requires Closed(nodes) && arg in nodes && arg.code == STRUCT && AllSound(nodes, open + {arg})
    requires NoneOpen(arg, open, nodes)
    requires arg !in sized && arg !in arg.elements && Became(sized, {}, {arg}, nodes)
    requires Placed(arg, offsets, before, 0) && (offsets != null ==> |arg.elements| <= |before|)
    modifies nodes, offsets
    ensures i <= |arg.elements| && AllSound(nodes, open + {arg}) && OnlyParts(arg, nodes)
    ensures Placed(arg, offsets, before, i)
    ensures offsets != null ==> i <= |before| && offsets[..] == OffsetsNow(arg.elements[..i]) + before[i..]
    ensures forall k :: 0 <= k < i ==> Passes(arg.elements[k], sized, nodes)
    ensures i < |arg.elements| ==> !Passes(arg.elements[i], sized, nodes)
    ensures Became(sized, if i == |arg.elements| then {} else Kept(arg.elements[i], sized, nodes), {arg}, nodes)
    decreases arg.shape, 1
  {
    hide AllSound, IsPart, Passes, Kept, EndNow, AlignNow, OffsetsNow;
    i := 0;
    while i < |arg.elements|
      invariant i <= |arg.elements|
      invariant AllSound(nodes, open + {arg}) && OnlyParts(arg, nodes) && Became(sized, {}, {arg}, nodes)
      invariant Placed(arg, offsets, before, i)
      invariant forall k :: 0 <= k < i ==> Passes(arg.elements[k], sized, nodes)
    {
      FieldNotOpen(arg, i, open, nodes);
      var ok := AddField(arg, offsets, i, before, sized, nodes, open + {arg});
      if !ok {
        return;
      }
      i := i + 1;
    }
  }

  /** After the loop. */
  method Conclude(arg: FfiType, i: nat, offsets: array?<nat>, ghost before: seq<nat>, ghost sized: set<FfiType>,
                  ghost nodes: set<FfiType>,
                  ghost open: set<FfiType>)
      returns (status: Status)
    requires Closed(nodes) && arg in nodes && arg.code == STRUCT && AllSound(nodes, open + {arg})
    requires NoneOpen(arg, open, nodes)
    requires arg !in sized && arg !in arg.elements && forall n :: n in nodes && n.code != STRUCT ==> n in sized
    requires i <= |arg.elements| && Placed(arg, offsets, before, i)
    requires forall k :: 0 <= k < i ==> Passes(arg.elements[k], sized, nodes)
    requires i < |arg.elements| ==> !Passes(arg.elements[i], sized, nodes)
    requires Became(sized, if i == |arg.elements| then {} else Kept(arg.elements[i], sized, nodes), {arg}, nodes)
    modifies arg
    ensures Done(arg, status, sized, nodes) && AllSound(nodes, open)
  {
    hide AllSound, AlignTo, AlignUp, IsPart, Passes, Kept, EndNow, AlignNow, FirstRefused, Done, AllPass, NoneOpen,
      LeftAt;
    FirstRefusedIs(arg, i, sized, nodes);
    if i < |arg.elements| {
      PlacedLeft(arg, offsets, before, i);
      RefusedAt(arg, i, sized, nodes);
      Refused(arg, sized, nodes, open);
      return BadTypedef;
    }
    status := Finish(arg, offsets, before, nodes, open);
    AllPlaced(arg, status, sized, nodes);
    if status == BadTypedef { Refused(arg, sized, nodes, open); }
  }

  /** Fixes the sizes of a struct and of everything in it that has none yet.  It fails exactly if a field is refused,
      and then what has been placed before that field remains. */
  method InitializeAggregate(arg: FfiType, offsets: array?<nat>, ghost nodes: set<FfiType>, ghost open: set<FfiType>)
      returns (status: Status)
    requires Closed(nodes) && arg in nodes && AllSound(nodes, open + {arg}) && NoneOpen(arg, open, nodes)
    requires offsets != null ==> offsets.Length >= |arg.elements|
    modifies nodes, offsets
    ensures if arg.code == STRUCT then Done(arg, status, old(Sized(nodes)) - {arg}, nodes) else status == BadTypedef
    ensures AllSound(nodes, open) && OnlyParts(arg, nodes)
    ensures arg.code == STRUCT && offsets != null ==>
      var k := FirstRefused(arg, 0, old(Sized(nodes)) - {arg}, nodes);
      offsets[..] == OffsetsNow(arg.elements[..k]) + old(offsets[k..])
    decreases arg.shape, 2
  {
    hide AllSound, AlignTo, AlignUp, IsPart, Passes, Kept, OffsetsNow, FirstRefused, Done, AllPass, NoneOpen, LeftAt,
      Placed, Became;
    if arg.code != STRUCT {
      ScalarStays(arg, open, nodes);
      return BadTypedef;
    }
    ghost var before := if offsets != null then offsets[..] else [];
    ghost var sized := Sized(nodes) - {arg};
    NotOwnField(arg, nodes);
    Clear(arg, offsets, before, sized, nodes, open + {arg});
    var i := PlaceFields(arg, offsets, before, sized, nodes, open);
    FirstRefusedIs(arg, i, sized, nodes);
    status := Conclude(arg, i, offsets, before, sized, nodes, open);
  }

  lemma Nothing(arg: FfiType, offsets: array?<nat>, before: seq<nat>)
    requires arg.size == arg.alignment == 0 && (offsets != null ==> before == offsets[..])
    ensures Placed(arg, offsets, before, 0)
  {
    assert arg.elements[..0] == [];
    assert offsets != null ==> offsets[..] == [] + before[0..];
  }

  lemma BecameFirst(arg: FfiType, sized: set<FfiType>, nodes: set<FfiType>)
    requires Closed(nodes) && Sized(nodes) - {arg} == sized
    ensures Became(sized, {}, {arg}, nodes)
  {
    forall n | n in nodes && n != arg && n.size != 0 ensures Passes(n, sized, nodes) {
      assert n in Sized(nodes);
    }
  }

  lemma PlacedLeft(arg: FfiType, offsets: array?<nat>, before: seq<nat>, i: nat)
    requires Placed(arg, offsets, before, i) && i < |arg.elements|
    ensures LeftAt(arg, i) && (arg.size != 0 <==> i > 0)
  {
    if i == 0 { assert arg.elements[..0] == []; }
  }

  // The check of a type in ffi_prep_cif_core

  lemma PlacedLaidOut(t: FfiType, k: nat, nodes: set<FfiType>)
    requires Closed(nodes) && t in nodes && AllSound(nodes, {}) && LeftAt(t, k)
    requires forall i :: 0 <= i < k ==> Inhabited(t.shape.elements[i])
    ensures EndNow(t.elements[..k]) == End(t.shape, k) && OffsetsNow(t.elements[..k]) == Offsets(t.shape, k)
  {
    hide Inhabited, AllSound;
    forall i | 0 <= i < k ensures t.elements[i].IsLaidOut() {
      assert t.elements[i].shape == t.shape.elements[i];
      LaidOutField(t.elements[i], {}, nodes);
    }
    LaidOutNow(t, k);
  }

  /** Before any check has failed, the size left behind is where the fields before the empty one end. */
  lemma LeftoverSize(t: FfiType, sized: set<FfiType>, nodes: set<FfiType>)
    requires Closed(nodes) && t in nodes && AllSound(nodes, {}) && Untouched(sized, nodes) && t.code == STRUCT
    requires !Inhabited(t.shape)
    requires LeftAt(t, FirstRefused(t, 0, sized, nodes))
    ensures t.size == End(t.shape, FirstEmpty(t.shape, 0))
  {
    hide AllSound, Passes;
    FirstEmptyRefused(t, 0, sized, nodes);
    var k := FirstEmpty(t.shape, 0);
    GoodBefore(t.shape, k);
    PlacedLaidOut(t, k, nodes);
    if k == |t.elements| {
      StructInhabited(t.shape);
      assert t.elements[..0] == t.elements;
    }
  }

  lemma GoodBefore(t: Type, k: nat)
    requires k == FirstEmpty(t, 0)
    ensures forall i :: 0 <= i < k ==> Inhabited(t.elements[i])
  {
    forall i | 0 <= i < k ensures Inhabited(t.elements[i]) {
      GoodAt(t, 0, i);
    }
  }

  lemma {:induction false} GoodAt(t: Type, k: nat, j: nat)
    requires k <= |t.elements| && k <= j < FirstEmpty(t, k)
    ensures Inhabited(t.elements[j])
    decreases j - k
  {
    if k < j { GoodAt(t, k + 1, j); }
  }

  /** If the check refuses the type now, it says next what these sizes and the ones it has left behind make it say. */
  ghost predicate NextTime(t: FfiType, sized: set<FfiType>, nodes: set<FfiType>)
    requires Closed(nodes) && t in nodes
  {
    Passes(t, sized + Kept(t, sized, nodes), nodes)
  }

  lemma AfterRefusal(t: FfiType, sized: set<FfiType>, nodes: set<FfiType>)
    requires Closed(nodes) && t in nodes && AllSound(nodes, {}) && Became(sized, Kept(t, sized, nodes), {}, nodes)
    requires sized <= nodes && forall n :: n in nodes && n.code != STRUCT ==> n in sized
    requires !Passes(t, sized, nodes)
    ensures Passes(t, Sized(nodes), nodes) == NextTime(t, sized, nodes)
    ensures StartsWithScalar(t.shape) ==> Gap(t, Sized(nodes), nodes) < Gap(t, sized, nodes)
  {
    hide Passes, IsPart, AllPass;
    var kept := Kept(t, sized, nodes);
    KeptAreParts(t, sized, nodes);
    forall n | n in nodes && IsPart(n, t, nodes)
      ensures (n in sized + kept ==> n in Sized(nodes)) && (n in Sized(nodes) ==> Passes(n, sized + kept, nodes))
    {
      if n in kept { SizedPasses(n, sized + kept, nodes); }
      if Passes(n, sized, nodes) { PassesMore(n, sized, sized + kept, nodes); }
    }
    PassesAlike(t, sized + kept, Sized(nodes), nodes);
    if StartsWithScalar(t.shape) { GapCloses(t, sized, Sized(nodes), nodes); }
  }

  /** A struct without an empty one in it is accepted in every state, one that is accepted starts with a scalar. */
  lemma PassesBetween(t: FfiType, nodes: set<FfiType>)
    requires Closed(nodes) && t in nodes && AllSound(nodes, {})
    ensures Inhabited(t.shape) ==> Passes(t, Sized(nodes), nodes)
    ensures Passes(t, Sized(nodes), nodes) ==> StartsWithScalar(t.shape)
  {
    hide Inhabited, Passes;
    ScalarsSized(nodes, {});
    if Inhabited(t.shape) { InhabitedPasses(t, Sized(nodes), nodes); }
    if Passes(t, Sized(nodes), nodes) {
      forall n | n in nodes && n in Sized(nodes) ensures StartsWithScalar(n.shape) {
        assert n.Sound({});
      }
      PassesStarts(t, Sized(nodes), nodes);
    }
  }

  method CheckType(t: FfiType, ghost nodes: set<FfiType>) returns (status: Status)
    requires Closed(nodes) && t in nodes && AllSound(nodes, {})
    modifies nodes
    ensures status == if Passes(t, old(Sized(nodes)), nodes) then Ok else BadTypedef
    ensures AllSound(nodes, {}) && OnlyParts(t, nodes) && (old(t.size) != 0 ==> unchanged(nodes))
    ensures status == Ok ==> t.size != 0 && Became(old(Sized(nodes)), {}, {}, nodes)
    ensures status == Ok && Inhabited(t.shape) ==> t.IsLaidOut()
    ensures Inhabited(t.shape) ==> status == Ok
    ensures Untouched(old(Sized(nodes)), nodes) && !Inhabited(t.shape) ==>
      status == BadTypedef && t.size == End(t.shape, FirstEmpty(t.shape, 0))
    ensures status == BadTypedef ==> Passes(t, Sized(nodes), nodes) == NextTime(t, old(Sized(nodes)), nodes)
    ensures status == BadTypedef && StartsWithScalar(t.shape) ==>
      Gap(t, Sized(nodes), nodes) < Gap(t, old(Sized(nodes)), nodes)
  {
    hide Inhabited, End, IsPart, Passes, AllPass, StartsWithScalar, LeftAt, FirstRefused, AllSound, Untouched, Gap,
      NextTime, Kept, Became;
    ghost var sized := Sized(nodes);
    PassesBetween(t, nodes);
    ScalarsSized(nodes, {});
    if Untouched(sized, nodes) { PassesIffInhabited(t, sized, nodes); }
    if t.size == 0 {
      Unsized(t, {}, nodes);
      assert sized - {t} == sized;
      PassesUnsized(t, sized, nodes);
      status := InitializeAggregate(t, null, nodes, {});
      if status == BadTypedef {
        AfterRefusal(t, sized, nodes);
        if Untouched(sized, nodes) { LeftoverSize(t, sized, nodes); }
      }
    } else {
      SizedPasses(t, sized, nodes);
      BecameNothing(nodes);
      status := Ok;
    }
    if status == Ok && Inhabited(t.shape) { LaidOutField(t, {}, nodes); }
  }

  /** A caller that tries again is refused for ever exactly if the chain of first fields ends in an empty struct. */
  method CheckRepeatedly(t: FfiType, times: nat, ghost nodes: set<FfiType>) returns (status: Status)
    requires Closed(nodes) && t in nodes && AllSound(nodes, {})
    modifies nodes
    ensures AllSound(nodes, {}) && status in {Ok, BadTypedef}
    ensures status == Ok ==> StartsWithScalar(t.shape)
    ensures StartsWithScalar(t.shape) && times > ChainLength(t.shape) ==> status == Ok
  {
    hide AllSound, Passes, StartsWithScalar, Became, Gap, NextTime, Kept, Inhabited;
    GapBound(t, Sized(nodes), nodes);
    status := BadTypedef;
    var n := 0;
    while n < times && status != Ok
      invariant n <= times && status in {Ok, BadTypedef} && AllSound(nodes, {})
      invariant status == Ok ==> StartsWithScalar(t.shape)
      invariant StartsWithScalar(t.shape) && status != Ok ==> n + Gap(t, Sized(nodes), nodes) <= ChainLength(t.shape)
    {
      PassesBetween(t, nodes);
      status := CheckType(t, nodes);
      n := n + 1;
    }
  }

  /** The next check accepts a type exactly if AcceptedNext. */
  method CheckTwice(t: FfiType, ghost nodes: set<FfiType>) returns (first: Status, second: Status)
    requires Closed(nodes) && t in nodes && AllSound(nodes, {}) && Untouched(Sized(nodes), nodes)
    modifies nodes
    ensures AllSound(nodes, {})
    ensures first == if Inhabited(t.shape) then Ok else BadTypedef
    ensures second == if AcceptedNext(t, nodes) then Ok else BadTypedef
    ensures Unshared(t, nodes) ==> second == if Inhabited(t.shape) || NextPasses(t.shape) then Ok else BadTypedef
  {
    hide Inhabited, NextPasses, Untouched, Unshared, AllSound, Passes, Kept, Gap, Became, AcceptedNext;
    ghost var sized := Sized(nodes);
    NextPassesIff(t, sized, nodes);
    PassesIffInhabited(t, sized, nodes);
    first := CheckType(t, nodes);
    if first == Ok {
      PassesMore(t, sized, sized + Kept(t, sized, nodes), nodes);
      SizedPasses(t, Sized(nodes), nodes);
    } else if Unshared(t, nodes) {
      NextPassesUnshared(t, sized, nodes);
    }
    second := CheckType(t, nodes);
  }

  /** struct { struct { int; struct { } } } is refused, and accepted when it is checked again. */
  method RefusedThenAccepted() returns (first: Status, second: Status)
    ensures first == BadTypedef && second == Ok
  {
    hide *;
    var int32 := new FfiType(SINT32, 4, 4, []);
    var empty := new FfiType(STRUCT, 0, 0, []);
    var inner := new FfiType(STRUCT, 0, 0, [int32, empty]);
    var t := new FfiType(STRUCT, 0, 0, [inner]);
    ghost var nodes := {int32, empty, inner, t};
    Witness(int32, empty, inner, t, nodes);
    first, second := CheckTwice(t, nodes);
  }

  lemma Witness(int32: FfiType, empty: FfiType, inner: FfiType, t: FfiType, nodes: set<FfiType>)
    requires int32.Consistent() && empty.Consistent() && inner.Consistent() && t.Consistent()
    requires nodes == {int32, empty, inner, t}
    requires int32.code == SINT32 && int32.size == int32.alignment == 4
    requires int32.shape.size == int32.shape.alignment == 4
    requires empty.code == inner.code == t.code == STRUCT && empty.size == inner.size == t.size == 0
    requires int32.elements == empty.elements == [] && inner.elements == [int32, empty] && t.elements == [inner]
    ensures Closed(nodes) && AllSound(nodes, {}) && Untouched(Sized(nodes), nodes) && Unshared(t, nodes)
    ensures !Inhabited(t.shape) && NextPasses(t.shape)
  {
    hide IsPart;
    assert inner.elements[0] == int32 && inner.elements[1] == empty && t.elements[0] == inner;
    assert !Inhabited(empty.shape);
    assert empty.shape == inner.shape.elements[1] && empty.shape in inner.shape.elements;
    assert inner.shape == t.shape.elements[0] && inner.shape in t.shape.elements;
    assert int32.shape == inner.shape.elements[0] && Inhabited(int32.shape);
    assert Unshared(int32, nodes);
    forall m | m in nodes && IsPart(m, int32, nodes) ensures Inhabited(m.shape) {
      OnlyItself(m, int32, nodes);
    }
  }

  /** With x = struct { int; struct { } }, so is struct { x; x }, though on the tree alone it would not be. */
  method SharedThenAccepted() returns (first: Status, second: Status, ghost shape: Type)
    ensures first == BadTypedef && second == Ok && !NextPasses(shape)
  {
    hide *;
    var int32 := new FfiType(SINT32, 4, 4, []);
    var empty := new FfiType(STRUCT, 0, 0, []);
    var x := new FfiType(STRUCT, 0, 0, [int32, empty]);
    var t := new FfiType(STRUCT, 0, 0, [x, x]);
    ghost var nodes := {int32, empty, x, t};
    SharedWitness(int32, empty, x, t, nodes);
    shape := t.shape;
    first, second := CheckTwice(t, nodes);
  }

  lemma SharedWitness(int32: FfiType, empty: FfiType, x: FfiType, t: FfiType, nodes: set<FfiType>)
    requires int32.Consistent() && empty.Consistent() && x.Consistent() && t.Consistent()
    requires nodes == {int32, empty, x, t}
    requires int32.code == SINT32 && int32.size == int32.alignment == 4
    requires int32.shape.size == int32.shape.alignment == 4
    requires empty.code == x.code == t.code == STRUCT && empty.size == x.size == t.size == 0
    requires int32.elements == empty.elements == [] && x.elements == [int32, empty] && t.elements == [x, x]
    ensures Closed(nodes) && AllSound(nodes, {}) && Untouched(Sized(nodes), nodes)
    ensures !Inhabited(t.shape) && !NextPasses(t.shape) && AcceptedNext(t, nodes)
  {
    assert x.elements[0] == int32 && x.elements[1] == empty && t.elements[0] == t.elements[1] == x;
    assert int32.shape == x.shape.elements[0] && Inhabited(int32.shape);
    assert empty.shape == x.shape.elements[1] && empty.shape in x.shape.elements && !Inhabited(empty.shape);
    assert x.shape == t.shape.elements[0] == t.shape.elements[1] && x.shape in t.shape.elements && !Inhabited(x.shape);
    assert FirstEmpty(t.shape, 0) == 0;
    assert FirstEmpty(x.shape, 1) == 1 && FirstEmpty(x.shape, 0) == 1;
    assert x in Leftover(x, nodes) && Leftover(t, nodes) == Leftover(x, nodes);
  }

  lemma OnlyItself(m: FfiType, n: FfiType, nodes: set<FfiType>)
    requires Closed(nodes) && n in nodes && n.elements == [] && IsPart(m, n, nodes)
    ensures m == n
  {
  }

  method GetStructOffsets(abiKnown: bool, t: FfiType, offsets: array<nat>, ghost nodes: set<FfiType>)
      returns (status: Status)
    requires Closed(nodes) && t in nodes && AllSound(nodes, {t})
    requires offsets.Length >= |t.elements|
    modifies nodes, offsets
    ensures status == if !abiKnown then BadAbi
                      else if AllPass(t, old(Sized(nodes)) - {t}, nodes) then Ok else BadTypedef
    ensures abiKnown && t.code == STRUCT && Inhabited(t.shape) ==> status == Ok && t.IsLaidOut()
    ensures abiKnown && Untouched(old(Sized(nodes)) - {t}, nodes) && !Inhabited(t.shape) ==> status == BadTypedef
    ensures status == Ok && Inhabited(t.shape) ==> offsets[..|t.elements|] == Offsets(t.shape, |t.elements|)
    ensures status == Ok ==> offsets[..|t.elements|] == OffsetsNow(t.elements)
    ensures abiKnown ==> AllSound(nodes, {}) && OnlyParts(t, nodes)
  {
    hide AllSound, Inhabited, Offsets, OffsetsNow, Passes, AllPass, LeftAt, FirstRefused, IsPart, Untouched, Kept,
      Became, EndNow, AlignNow;
    if !abiKnown {
      return BadAbi;
    }
    assert {} + {t} == {t};
    ghost var sized := Sized(nodes) - {t};
    OffsetsStart(t, sized, nodes);
    if t.code != STRUCT {
      ScalarStays(t, {}, nodes);
      return BadTypedef;
    }
    status := InitializeAggregate(t, offsets, nodes, {});
    if status == Ok { OffsetsEnd(t, sized, nodes); }
  }

  lemma OffsetsStart(t: FfiType, sized: set<FfiType>, nodes: set<FfiType>)
    requires Closed(nodes) && t in nodes && AllSound(nodes, {t}) && sized == Sized(nodes) - {t}
    ensures t.code == STRUCT && Inhabited(t.shape) ==> AllPass(t, sized, nodes)
    ensures AllPass(t, sized, nodes) ==> t.code == STRUCT
    ensures Untouched(sized, nodes) && !Inhabited(t.shape) ==> !AllPass(t, sized, nodes)
  {
    hide Passes, Inhabited;
    ScalarsSized(nodes, {t});
    PassesUnsized(t, sized, nodes);
    if t.code == STRUCT && Inhabited(t.shape) {
      assert forall n :: n in nodes && n.code != STRUCT ==> n in sized;
      InhabitedPasses(t, sized, nodes);
    }
    if Untouched(sized, nodes) { PassesIffInhabited(t, sized, nodes); }
  }

  lemma OffsetsEnd(t: FfiType, sized: set<FfiType>, nodes: set<FfiType>)
    requires Closed(nodes) && t in nodes && AllSound(nodes, {}) && Done(t, Ok, sized, nodes) && t.code == STRUCT
    ensures FirstRefused(t, 0, sized, nodes) == |t.elements|
    ensures t.elements[..|t.elements|] == t.elements
    ensures Inhabited(t.shape) ==> t.IsLaidOut() && OffsetsNow(t.elements) == Offsets(t.shape, |t.elements|)
  {
    hide AllSound, Inhabited, EndNow, OffsetsNow, Passes;
    var n := |t.elements|;
    FirstRefusedIs(t, n, sized, nodes);
    if Inhabited(t.shape) {
      LaidOutField(t, {}, nodes);
      StructInhabited(t.shape);
      PlacedLaidOut(t, n, nodes);
    }
  }

  /** A type without an empty struct and all its parts have their layout. */
  ghost predicate Complete(t: FfiType, nodes: set<FfiType>)
    requires Closed(nodes) && t in nodes
    reads nodes
    decreases t.shape
  {
    t.IsLaidOut() && (t.code == STRUCT ==> forall i :: 0 <= i < |t.elements| ==> Complete(t.elements[i], nodes))
  }

  /** So once it has a size it can be relied on, all the way down. */
  lemma {:induction false} WholeTree(t: FfiType, nodes: set<FfiType>)
    requires Closed(nodes) && t in nodes && AllSound(nodes, {}) && t.size != 0 && Inhabited(t.shape)
    ensures Complete(t, nodes)
    decreases t.shape
  {
    hide SizeOf, AlignOf, Inhabited;
    assert t.Sound({});
    LaidOutField(t, {}, nodes);
    if t.code == STRUCT {
      StructInhabited(t.shape);
      forall i | 0 <= i < |t.elements| ensures Complete(t.elements[i], nodes) {
        assert t.elements[i].shape == t.shape.elements[i];
        WholeTree(t.elements[i], nodes);
      }
    }
  }
}
