/** Closure memory: every block has a writable address and an executable one. */
module Closures {
  import opened Heap
  import opened HeapFit
  import opened HeapGrow
  import opened HeapKept
  import opened HeapMoves
  import opened HeapState
  import opened HeapTags
  import opened SegPrepend
  import opened SegTop
  import opened Tiles
  import opened Words

  /** The executable address that belongs to data address ptr of a block. */
  function CodeOf(s: State, ptr: int): int {
    U64(ptr + ExecOf(s, ptr - 16))
  }

  /** The first segment of the list that holds the address of a block is the block's own. */
  lemma OwnSegment(m: Mem, s: State, p: int, k: int)
    requires HeapOk(m, s) && p in s.cs && 0 <= k <= |s.order|
    requires k < |s.order| ==> s.order[k] in s.g && HoldsAddress(s.g[s.order[k]], p + 16)
    requires forall j :: 0 <= j < k ==> s.order[j] in s.g && !HoldsAddress(s.g[s.order[j]], p + 16)
    ensures k < |s.order| && s.order[k] == s.cs[p].home && s.g[s.order[k]].exec == ExecOf(s, p)
  {
    hide W, HeapOk, ShapeOk;
    ShapeOf(m, s);
    OrderIn(s);
    OneChunk(s, p);
    HeldBy(m, s, p, s.cs[p].home);
    if k < |s.order| {
      HeldBy(m, s, p, s.order[k]);
    }
  }

  /** ffi_closure_alloc: a null code pointer gets nothing; otherwise code is where the new block can be executed. */
  method FfiClosureAlloc(h: Heap, size: int, wantsCode: bool) returns (ptr: int, code: int)
    requires h.Valid() && 0 <= size < TWO64
    modifies h
    ensures h.Valid()
    ensures !wantsCode || ptr == 0 ==> ptr == 0 && unchanged(h)
    ensures ptr != 0 ==> size < MAX_REQUEST && GaveSize(old(h.mem), old(h.s), h.mem, h.s, ptr - 16, Request(size))
    ensures ptr != 0 ==> code == CodeOf(h.s, ptr) && ptr in h.alias && code == U64(ptr + h.alias[ptr])
  {
    hide W, HeapOk, AtLeast, AliasOk, Footprint, Pending, GaveSize, U64, ExecOf;
    ptr, code := 0, 0;
    if !wantsCode {
      return;
    }
    ptr := h.Malloc(size);
    if ptr != 0 {
      BlockThere(old(h.mem), old(h.s), h.mem, h.s, ptr - 16, Request(size));
      var sp, k := h.SegmentHolding(ptr);
      OwnSegment(h.mem, h.s, ptr - 16, k);
      RecordReadable(h.mem, h.s, k);
      code := U64(ptr + Get(h.mem, sp + SEG_EXEC));
      AliasHere(h.alias, h.s.g, h.s.order[k], ptr);
    }
  }

  lemma BlockThere(m0: Mem, s: State, m: Mem, t: State, p: int, nb: int)
    requires GaveSize(m0, s, m, t, p, nb)
    ensures HeapOk(m, t) && p in t.cs
  {
  }

  lemma AliasHere(alias: map<int, int>, g: Segs, h: nat, a: int)
    requires AliasOk(alias, g) && h in g && HoldsAddress(g[h], a)
    ensures a in alias && alias[a] == g[h].exec
  {
    assert AliasIs(alias, g[h].base, g[h].size, g[h].exec);
  }

  /** ffi_data_to_code_pointer: the segment that holds the address says where it can be executed; other memory is
      taken to be executable where it is. */
  method FfiDataToCodePointer(h: Heap, data: int) returns (code: int)
    requires h.Valid()
    ensures data - 16 in Users(h.s.cs) ==> code == CodeOf(h.s, data)
    ensures forall n :: n in h.s.g && HoldsAddress(h.s.g[n], data) ==> code == U64(data + h.s.g[n].exec)
    ensures (forall n :: n in h.s.g ==> !HoldsAddress(h.s.g[n], data)) ==> code == data
  {
    hide W, HeapOk, AtLeast, AliasOk, Footprint, Pending, U64, ExecOf, HoldsAddress;
    var sp, k := h.SegmentHolding(data);
    ListComplete(h.mem, h.s, data, k);
    if sp != 0 {
      RecordReadable(h.mem, h.s, k);
      code := U64(data + Get(h.mem, sp + SEG_EXEC));
    } else {
      code := data;
    }
    if data - 16 in Users(h.s.cs) {
      OwnSegment(h.mem, h.s, data - 16, k);
    }
  }

  /** No two segments hold an address, and every segment is in the list. */
  lemma ListComplete(m: Mem, s: State, a: int, k: int)
    requires HeapOk(m, s) && 0 <= k <= |s.order|
    requires k < |s.order| ==> s.order[k] in s.g && HoldsAddress(s.g[s.order[k]], a)
    requires forall j :: 0 <= j < k ==> s.order[j] in s.g && !HoldsAddress(s.g[s.order[j]], a)
    ensures forall n :: n in s.g && HoldsAddress(s.g[n], a) ==> k < |s.order| && n == s.order[k]
  {
    hide W, HeapOk, ShapeOk;
    ShapeOf(m, s);
    OrderIn(s);
    SegsOf(s);
  }

  /** ffi_closure_free. */
  method FfiClosureFree(h: Heap, ptr: int)
    requires h.Valid() && (ptr == 0 || ptr - 16 in Users(h.s.cs))
    modifies h
    ensures h.Valid()
    ensures ptr == 0 ==> unchanged(h)
    ensures ptr != 0 ==> Took(old(h.mem), old(h.s), h.mem, h.s, ptr - 16)
  {
    h.Free(ptr);
  }

  /** As long as a block is held, its executable address stays what it was. */
  lemma CodeStays(m: Mem, s: State, m': Mem, t: State, u: map<int, int>, ptr: int)
    requires Kept(m, s, m', t, u) && ptr - 16 in u
    ensures CodeOf(t, ptr) == CodeOf(s, ptr)
  {
    hide W, ExecOf;
  }

  // Whole runs

  /** What a client does: asks for closures, stores words in them, gives them back.  Closures are named by number. */
  datatype Op = Alloc(name: nat, size: int) | Fill(name: nat, offset: int, value: int) | Release(name: nat)

  /** A closure in use: its addresses, the bytes it can hold, and the words the client has stored. */
  datatype Closure = Closure(ptr: int, code: int, room: int, words: map<int, int>)

  type Live = map<nat, Closure>

  /** The heap still gives the closure what it was promised. */
  ghost predicate Honoured(m: Mem, s: State, c: Closure) {
    && c.ptr - 16 in Users(s.cs) && c.ptr % 8 == 0 && c.room == Users(s.cs)[c.ptr - 16] - CHUNK_OVERHEAD
    && c.code == CodeOf(s, c.ptr)
    && forall o :: o in c.words ==> 0 <= o < c.room && W(m, c.ptr + o) == c.words[o]
  }

  ghost predicate AllHonoured(m: Mem, s: State, live: Live) {
    && (forall n :: n in live ==> Honoured(m, s, live[n]))
    && (forall n, k :: n in live && k in live && n != k ==> live[n].ptr != live[k].ptr)
  }

  /** Closures of different names share no byte. */
  lemma Disjoint(m: Mem, s: State, live: Live, n: nat, k: nat)
    requires HeapOk(m, s) && AllHonoured(m, s, live) && n in live && k in live && n != k
    ensures live[n].ptr + live[n].room <= live[k].ptr || live[k].ptr + live[k].room <= live[n].ptr
  {
    hide W, HeapOk, ShapeOk, CodeOf;
    ShapeOf(m, s);
    NoOverlapOf(s);
    assert Honoured(m, s, live[n]) && Honoured(m, s, live[k]);
  }

  lemma StaysHonoured(m: Mem, s: State, m': Mem, t: State, u: map<int, int>, c: Closure)
    requires Honoured(m, s, c) && Kept(m, s, m', t, u) && c.ptr - 16 in u && c.ptr % 8 == 0
    ensures Honoured(m', t, c)
  {
    hide W, ExecOf;
    CodeStays(m, s, m', t, u, c.ptr);
  }

  lemma AllStay(m: Mem, s: State, m': Mem, t: State, u: map<int, int>, live: Live)
    requires AllHonoured(m, s, live) && Kept(m, s, m', t, u) && forall n :: n in live ==> live[n].ptr - 16 in u
    ensures AllHonoured(m', t, live)
  {
    hide W, Kept, Honoured;
    forall n | n in live ensures Honoured(m', t, live[n]) {
      HonouredAligned(m, s, live[n]);
      StaysHonoured(m, s, m', t, u, live[n]);
    }
  }

  lemma HonouredAligned(m: Mem, s: State, c: Closure)
    requires Honoured(m, s, c)
    ensures c.ptr % 8 == 0 && c.ptr - 16 in Users(s.cs) && c.room == Users(s.cs)[c.ptr - 16] - CHUNK_OVERHEAD
  {
  }

  lemma AfterAlloc(m: Mem, s: State, m': Mem, t: State, live: Live, name: nat, ptr: int, nb: int)
    requires AllHonoured(m, s, live) && GaveSize(m, s, m', t, ptr - 16, nb) && name !in live && ptr % 8 == 0
    ensures ptr - 16 in Users(t.cs)
    ensures AllHonoured(m', t, live[name := Closure(ptr, CodeOf(t, ptr), Users(t.cs)[ptr - 16] - CHUNK_OVERHEAD,
                                                    map[])])
    ensures Users(t.cs)[ptr - 16] >= nb
  {
    hide W, HeapOk, Kept, Pending, CodeOf;
    forall n | n in live ensures live[n].ptr - 16 in Users(s.cs) {
      HonouredAligned(m, s, live[n]);
    }
    AllStay(m, s, m', t, Users(s.cs), live);
  }

  lemma AfterRelease(m: Mem, s: State, m': Mem, t: State, live: Live, name: nat)
    requires AllHonoured(m, s, live) && name in live && Took(m, s, m', t, live[name].ptr - 16)
    ensures AllHonoured(m', t, live - {name})
  {
    hide W, HeapOk, Kept;
    forall n | n in live ensures live[n].ptr - 16 in Users(s.cs) {
      HonouredAligned(m, s, live[n]);
    }
    AllStay(m, s, m', t, Users(s.cs) - {live[name].ptr - 16}, live - {name});
  }

  lemma AfterFill(m: Mem, m': Mem, s: State, live: Live, name: nat, offset: int, value: int)
    requires AllHonoured(m, s, live) && name in live && 0 <= offset < live[name].room
    requires W(m', live[name].ptr + offset) == value
    requires forall b {:trigger W(m', b)} :: b != live[name].ptr + offset ==> W(m', b) == W(m, b)
    requires HeapOk(m, s)
    ensures var c := live[name]; AllHonoured(m', s, live[name := c.(words := c.words[offset := value])])
  {
    hide W, HeapOk, CodeOf, Users;
    var c := live[name];
    var live' := live[name := c.(words := c.words[offset := value])];
    forall n | n in live' ensures Honoured(m', s, live'[n]) {
      if n != name {
        Disjoint(m, s, live, n, name);
      }
      assert Honoured(m, s, live[n]);
    }
  }

  /** What the allocator answers to one operation; ptr is 0 unless a closure has been handed out. */
  datatype Answer = Answer(ptr: int, code: int, room: int)

  predicate CanFill(live: Live, name: nat, offset: int) {
    name in live && 0 <= offset < live[name].room && offset % 8 == 0
  }

  /** What the client holds after an operation, given the answer: a store is the only thing that changes contents, and
      only those of the closure stored to.  Operations that make no sense are skipped. */
  function Apply(live: Live, op: Op, a: Answer): Live {
    match op
    case Alloc(name, size) => if name !in live && a.ptr != 0 then live[name := Closure(a.ptr, a.code, a.room, map[])]
      else live
    case Fill(name, offset, value) =>
      if CanFill(live, name, offset) then live[name := live[name].(words := live[name].words[offset := value])]
        else live
    case Release(name) => live - {name}
  }

  function Replay(ops: seq<Op>, answers: seq<Answer>): Live
    requires |ops| == |answers|
  {
    if ops == [] then map[] else Apply(Replay(ops[..|ops| - 1], answers[..|ops| - 1]), ops[|ops| - 1],
                                       answers[|ops| - 1])
  }

  lemma ReplayNone()
    ensures Replay([], []) == map[]
  {
  }

  lemma ReplayOne(ops: seq<Op>, answers: seq<Answer>, i: int, a: Answer)
    requires 0 <= i < |ops| && |answers| == i
    ensures Replay(ops[..i + 1], answers + [a]) == Apply(Replay(ops[..i], answers), ops[i], a)
  {
    assert ops[..i + 1][..i] == ops[..i];
    assert (answers + [a])[..i] == answers;
  }

  /** Any run: after whatever a client does, what it holds is what the operations and answers alone imply, and the heap
      honours all of it: addresses, room, contents, and code addresses that ffi_data_to_code_pointer still finds. */
  method Run(h: Heap, ops: seq<Op>) returns (live: Live, answers: seq<Answer>)
    requires h.Valid() && Users(h.s.cs) == map[]
    modifies h
    ensures h.Valid() && |answers| == |ops| && live == Replay(ops, answers) && AllHonoured(h.mem, h.s, live)
    ensures forall n :: n in live ==> live[n].ptr in h.alias && live[n].code == U64(live[n].ptr + h.alias[live[n].ptr])
  {
    hide W, HeapOk, AtLeast, AliasOk, Footprint, Pending, GaveSize, Took, CodeOf, AllHonoured, Honoured, Replay;
    live, answers := map[], [];
    NoneYet(h.mem, h.s);
    assert ops[..0] == [] && Replay([], []) == map[] by { ReplayNone(); }
    for i := 0 to |ops|
      invariant h.Valid() && AllHonoured(h.mem, h.s, live)
      invariant |answers| == i && live == Replay(ops[..i], answers)
    {
      var a := Answer(0, 0, 0);
      ghost var m0, s0, live0 := h.mem, h.s, live;
      match ops[i] {
        case Alloc(name, size) =>
          if name !in live && 0 <= size < TWO64 {
            var ptr, code := FfiClosureAlloc(h, size, true);
            if ptr != 0 {
              SizeAligned(m0, s0, h.mem, h.s, ptr - 16, Request(size));
              AfterAlloc(m0, s0, h.mem, h.s, live, name, ptr, Request(size));
              HeadRead(h.mem, h.s, ptr - 16);
              a := Answer(ptr, code, ChunkSize(Get(h.mem, ptr - 16 + HEAD)) - CHUNK_OVERHEAD);
            }
          }
        case Fill(name, offset, value) =>
          if CanFill(live, name, offset) {
            var c := live[name];
            HonouredIn(h.mem, h.s, live, name);
            BlockAligned(h.mem, h.s, c.ptr - 16);
            h.Store(c.ptr - 16, c.ptr + offset, value);
            AfterFill(m0, h.mem, h.s, live, name, offset, value);
          }
        case Release(name) =>
          if name in live {
            HonouredIn(h.mem, h.s, live, name);
            FfiClosureFree(h, live[name].ptr);
            AfterRelease(m0, s0, h.mem, h.s, live, name);
          } else {
            assert live - {name} == live;
          }
      }
      ReplayOne(ops, answers, i, a);
      live := Apply(live, ops[i], a);
      answers := answers + [a];
    }
    assert ops[..|ops|] == ops;
    forall n | n in live ensures live[n].ptr in h.alias && live[n].code == U64(live[n].ptr + h.alias[live[n].ptr]) {
      CodeIsTrue(h.mem, h.s, h.alias, live, n);
    }
  }

  /** The code address of a closure is where its memory really is mapped for execution. */
  lemma CodeIsTrue(m: Mem, s: State, alias: map<int, int>, live: Live, n: nat)
    requires HeapOk(m, s) && AliasOk(alias, s.g) && AllHonoured(m, s, live) && n in live
    ensures live[n].ptr in alias && live[n].code == U64(live[n].ptr + alias[live[n].ptr])
  {
    hide W, HeapOk, ShapeOk, AliasOk, AliasIs, U64;
    var p := live[n].ptr - 16;
    assert Honoured(m, s, live[n]);
    ShapeOf(m, s);
    OneChunk(s, p);
    HeldBy(m, s, p, s.cs[p].home);
    AliasHere(alias, s.g, s.cs[p].home, live[n].ptr);
  }

  lemma NoneYet(m: Mem, s: State)
    ensures AllHonoured(m, s, map[])
  {
  }

  lemma HeadRead(m: Mem, s: State, p: int)
    requires HeapOk(m, s) && p in Users(s.cs)
    ensures p + HEAD in m && ChunkSize(W(m, p + HEAD)) == Users(s.cs)[p]
  {
    hide W, HeapOk, ChunkSize;
    HeadAt(m, s, p);
  }

  lemma BlockAligned(m: Mem, s: State, p: int)
    requires HeapOk(m, s) && p in Users(s.cs)
    ensures p % 8 == 0
  {
    hide W, HeapOk, ShapeOk;
    ShapeOf(m, s);
    OneChunk(s, p);
  }

  lemma HonouredIn(m: Mem, s: State, live: Live, n: nat)
    requires HeapOk(m, s) && AllHonoured(m, s, live) && n in live
    ensures live[n].ptr - 16 in Users(s.cs) && live[n].room == Users(s.cs)[live[n].ptr - 16] - CHUNK_OVERHEAD
    ensures live[n].ptr != 0
  {
    hide W, HeapOk, ShapeOk, CodeOf, Users;
    assert Honoured(m, s, live[n]);
    ShapeOf(m, s);
    UserAddress(s, live[n].ptr - 16);
  }

  lemma UserAddress(s: State, p: int)
    requires ShapeOk(s) && p in Users(s.cs)
    ensures p >= GM_END
  {
    hide ShapeOk;
    OneChunkBase(s, p);
    WordsOfSegment(s, s.cs[p].home);
  }
}
