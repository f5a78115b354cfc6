/** do_check_malloc_state of dlmalloc.c: on a valid heap, every assertion holds about every bin, the designated
    victim, top and all chunks. */
module StateCheck {
  import opened BinCheck
  import opened BinIndex
  import opened Bins
  import opened BestFit
  import opened Heap
  import opened HeapCheck
  import opened HeapFit
  import opened HeapFree
  import opened HeapGrow
  import opened HeapKept
  import opened HeapMoves
  import opened SegTop
  import opened HeapState
  import opened HeapTags
  import opened Rings
  import opened Tiles
  import opened TreeSearch
  import opened TrieMem
  import opened Tries
  import opened Words

  // Small bins

  /** Chunk p is chunk k of small bin i, read from behind. */
  ghost predicate InSmall(m: Mem, s: State, i: int, k: int, p: int) {
    && 0 <= i < 32 && |s.b.small| == 32 && 0 <= k < |s.b.small[i]| && p == s.b.small[i][k]
  }

  lemma SmallTurn(m: Mem, s: State, i: int, k: int, p: int)
    requires HeapOk(m, s) && InSmall(m, s, i, k, p) && s.b.smallmap[i]
    ensures p in s.b.bn && s.b.bn[p] == 8 * i && p != SB(i)
    ensures p + BK in m && W(m, p + BK) == if k == 0 then SB(i) else s.b.small[i][k - 1]
  {
    hide W, HeapOk, BinsOk, RingRep, Distinct;
    BinsHere(m, s);
    OccupiedBin(m, s.b, i);
    var list := s.b.small[i];
    assert p in list;
    BackLink(m, [SB(i)] + list, k + 1);
    LinkMapped(m, s, p);
  }

  lemma BackLink(m: Mem, r: seq<int>, k: int)
    requires RingRep(m, r) && 0 <= k < |r|
    ensures W(m, r[k] + BK) == if k > 0 then r[k - 1] else r[|r| - 1]
  {
    hide W;
  }

  /** A binned chunk as its head shows it; the chunk behind it is in use. */
  ghost predicate BinnedAt(m: Mem, s: State, p: int) {
    && p in s.cs && p in s.b.bn && s.cs[p].kind.Binned? && s.cs[p].size == s.b.bn[p]
    && p + HEAD in m && ChunkSize(W(m, p + HEAD)) == s.b.bn[p]
    && var q := p + s.b.bn[p];
    && q in s.cs && q + HEAD in m && InUse(s.cs[q].kind)
  }

  lemma AfterBinned(m: Mem, s: State, p: int)
    requires HeapOk(m, s) && Pending(s.cs) == {} && p in s.b.bn
    ensures BinnedAt(m, s, p)
  {
    hide W, HeapOk, BinsOk, ShapeOk, BinnedIs, ChunkSize;
    ShapeOf(m, s);
    BinsHere(m, s);
    BinnedChunk(s.cs, s.b.bn, p);
    NotFresh(s, p);
    HeadAt(m, s, p);
    FreeNeighbour(s, p);
    var q := p + s.b.bn[p];
    NotFresh(s, q);
    HeadAt(m, s, q);
  }

  /** The body of the loop of do_check_smallbin. */
  method CheckSmallChunk(h: Heap, i: int, p: int, ghost k: int) returns (ok: bool)
    requires h.Valid() && InSmall(h.mem, h.s, i, k, p) && h.s.b.smallmap[i]
    ensures ok
  {
    hide W, HeapOk, AtLeast, AliasOk, Footprint, Pending, ChunkSize, InUse;
    SmallTurn(h.mem, h.s, i, k, p);
    AfterBinned(h.mem, h.s, p);
    assert !InUse(h.s.cs[p].kind) by { BinnedIsFree(h.s.cs[p].kind); }
    var size := ChunkSize(Get(h.mem, p + HEAD));
    ok := CheckFreeChunk(h, p);
    ok := ok && SmallIndex(size) == i;
    var back := Get(h.mem, p + BK);
    if back != SB(i) {
      SmallTurn(h.mem, h.s, i, k - 1, back);
      AfterBinned(h.mem, h.s, back);
      ok := ok && ChunkSize(Get(h.mem, back + HEAD)) == size;
    }
    var q := p + size;
    if Get(h.mem, q + HEAD) != FENCEPOST_HEAD {
      var rest := CheckInuseChunk(h, q);
      ok := ok && rest;
    }
  }

  lemma BinnedIsFree(k: Kind)
    requires k.Binned?
    ensures !InUse(k)
  {
  }

  lemma SmallHeader(m: Mem, s: State, i: int)
    requires HeapOk(m, s) && 0 <= i < 32
    ensures SB(i) + BK in m && |s.b.small| == 32 && (s.b.smallmap[i] <==> s.b.small[i] != [])
    ensures s.b.smallmap[i] ==> W(m, SB(i) + BK) == s.b.small[i][|s.b.small[i]| - 1] != SB(i)
  {
    hide W, HeapOk, BinsOk, RingRep, Distinct;
    BinsHere(m, s);
    if s.b.smallmap[i] {
      OccupiedBin(m, s.b, i);
      BackLink(m, [SB(i)] + s.b.small[i], 0);
      SmallTurn(m, s, i, |s.b.small[i]| - 1, s.b.small[i][|s.b.small[i]| - 1]);
    } else {
      UnmarkedBin(m, s.b, i);
    }
  }

  lemma UnmarkedBin(m: Mem, b: BinState, i: int)
    requires BinsOk(m, b) && 0 <= i < 32
    ensures |b.small| == 32 && (b.smallmap[i] <==> b.small[i] != [])
    ensures |b.trees| == 32 && (b.treemap[i] <==> b.trees[i].Node?)
  {
    hide W, RingRep, TreeRep, TrieOk, TreeIndex;
    assert SmallBin(m, b.smallmap, i, b.small[i], b.bn);
    assert TreeBin(m, b.treemap, i, b.trees[i], b.bn);
  }

  /** do_check_smallbin. */
  method CheckSmallBin(h: Heap, i: int) returns (ok: bool)
    requires h.Valid() && 0 <= i < 32
    ensures ok
  {
    hide W, HeapOk, AtLeast, AliasOk, Footprint, Pending;
    SmallHeader(h.mem, h.s, i);
    var b := SB(i);
    var p := Get(h.mem, b + BK);
    var empty := !h.smallmap[i];
    ok := p == b ==> empty;
    if !empty {
      ghost var k := |h.s.b.small[i]| - 1;
      while p != b
        invariant ok && (if p == b then k == -1 else InSmall(h.mem, h.s, i, k, p))
        decreases k
      {
        var chunkOk := CheckSmallChunk(h, i, p, k);
        ok := ok && chunkOk;
        SmallTurn(h.mem, h.s, i, k, p);
        if k > 0 { SmallTurn(h.mem, h.s, i, k - 1, h.s.b.small[i][k - 1]); }
        p := Get(h.mem, p + BK);
        k := k - 1;
      }
    }
  }

  // Tree bins

  /** The subtree tr of bin i, spanning sizes from lo, is reached through the word at slot, which belongs to par. */
  ghost predicate Hangs(m: Mem, s: State, i: int, t: int, par: int, slot: int, tr: Trie, lo: int, w: int) {
    && 0 <= i < 32 && tr.Node? && Walkable(m, t, par, i, tr, lo, w, s.b.bn) && W(m, slot) == t
    && (forall p :: p in Elems(tr) ==> p in s.b.bn && InTreeClass(s.b.bn[p], i))
    && ((par == TB(i) && slot == par) || ((slot == par + CHILD0 || slot == par + CHILD1) && par !in Elems(tr)))
    && par + CHILD0 in m && par + CHILD1 in m && par in m && 0 < par
  }

  /** Chunk k of the ring of that subtree's root. */
  ghost predicate RingAt(m: Mem, s: State, i: int, par: int, tr: Trie, k: int) {
    tr.Node? && 0 <= k < |tr.ring| && var u := tr.ring[k];
    && u in s.b.bn && s.b.bn[u] == tr.size && u + FD in m && W(m, u + FD) == NextOf(tr.ring, k)
    && u + INDEX in m && W(m, u + INDEX) == i && u + PARENT in m && u + CHILD0 in m && u + CHILD1 in m
    && W(m, u + PARENT) == (if k == 0 then par else 0)
    && (k > 0 ==> W(m, u + CHILD0) == 0 && W(m, u + CHILD1) == 0)
  }

  lemma RootOf(m: Mem, s: State, i: int, t: int, par: int, slot: int, tr: Trie, lo: int, w: int)
    requires HeapOk(m, s) && Pending(s.cs) == {} && Hangs(m, s, i, t, par, slot, tr, lo, w)
    ensures tr.Node? && tr.ring != [] && t == tr.ring[0] && Distinct(tr.ring) && t >= GM_END
    ensures MIN_LARGE_SIZE <= tr.size < TWO64 && TreeIndex(tr.size) == i
  {
    hide W, HeapOk, BinsOk, TrieOk, TreeRep, IsPow2, TreeIndex, Pending, Distinct, NodeRep;
    HangParts(m, s, i, t, par, slot, tr, lo, w);
    HeadInElems(m, t, par, i, tr);
    SizeHere(tr, lo, w, s.b.bn);
    TreeChunk(m, s, t);
  }

  lemma RingTurnOf(m: Mem, s: State, i: int, t: int, par: int, slot: int, tr: Trie, lo: int, w: int, k: int)
    requires HeapOk(m, s) && Pending(s.cs) == {} && Hangs(m, s, i, t, par, slot, tr, lo, w) && 0 <= k < |tr.ring|
    ensures RingAt(m, s, i, par, tr, k)
  {
    hide W, HeapOk, BinsOk, TrieOk, TreeRep, IsPow2, TreeIndex, Pending, Distinct, NodeRep, NextOf, Elems;
    HangParts(m, s, i, t, par, slot, tr, lo, w);
    HeadInElems(m, t, par, i, tr);
    SizeHere(tr, lo, w, s.b.bn);
    NodeWords(m, tr.ring, par, i, k);
    assert tr.ring[k] in tr.ring;
    TreeChunk(m, s, tr.ring[k]);
  }

  lemma HangParts(m: Mem, s: State, i: int, t: int, par: int, slot: int, tr: Trie, lo: int, w: int)
    requires Hangs(m, s, i, t, par, slot, tr, lo, w)
    ensures tr.Node? && TreeRep(m, t, par, i, tr) && TrieOk(tr, lo, w, s.b.bn) && IsPow2(w) && lo >= 0
    ensures forall p :: p in Elems(tr) ==> p in s.b.bn && InTreeClass(s.b.bn[p], i)
  {
    hide W, TrieOk, TreeRep, IsPow2, InTreeClass;
  }

  lemma NodeWords(m: Mem, ring: seq<int>, par: int, idx: int, k: int)
    requires NodeRep(m, ring, par, idx)
    ensures ring != []
    ensures 0 <= k < |ring| ==> var u := ring[k];
      && W(m, u + FD) == NextOf(ring, k) && W(m, u + INDEX) == idx && W(m, u + PARENT) == (if k == 0 then par else 0)
      && (k > 0 ==> W(m, u + CHILD0) == 0 && W(m, u + CHILD1) == 0)
  {
    hide W, NextOf;
    if 0 < k < |ring| { assert ChainedRep(m, ring[k]); }
  }

  lemma TreeChunk(m: Mem, s: State, u: int)
    requires HeapOk(m, s) && Pending(s.cs) == {} && u in s.b.bn && s.b.bn[u] >= MIN_LARGE_SIZE
    ensures u + FD in m && u + INDEX in m && u + PARENT in m && u + CHILD0 in m && u + CHILD1 in m && u >= GM_END
    ensures s.b.bn[u] < TWO64
  {
    hide W, HeapOk, BinsOk, BinnedIs, Readable, ChunkSize;
    BinsHere(m, s);
    BinnedChunk(s.cs, s.b.bn, u);
    SizeFacts(m, s, u);
    ChunkMapped(m, s, u, u);
    BinnedWord(m, s.b.bn, u, u + FD);
    BinnedWord(m, s.b.bn, u, u + INDEX);
    BinnedWord(m, s.b.bn, u, u + PARENT);
    BinnedWord(m, s.b.bn, u, u + CHILD0);
    BinnedWord(m, s.b.bn, u, u + CHILD1);
  }

  /** What do_check_tree asserts of every chunk of a ring; the chunk in the tree is checked further. */
  method CheckRingChunk(h: Heap, u: int, tindex: int, tsize: int) returns (ok: bool)
    requires h.Valid() && u in h.s.b.bn && h.s.b.bn[u] == tsize >= MIN_LARGE_SIZE && u + INDEX in h.mem
    requires W(h.mem, u + INDEX) == tindex
    ensures ok
  {
    hide W, HeapOk, AtLeast, AliasOk, Footprint, Pending, CInuse, PInuse, ChunkSize, Recognized, FreeBehind;
    AfterBinned(h.mem, h.s, u);
    PlainChunk(h.mem, h.s, h.leastAddr, u);
    RecognizedTags(h.mem, h.s, u);
    LinksMapped(h.mem, h.s, u);
    var head := Get(h.mem, u + HEAD);
    ok := AnyChunk(u, head, h.leastAddr) && Get(h.mem, u + INDEX) == tindex && ChunkSize(head) == tsize
      && !CInuse(head) && !PInuse(Get(h.mem, u + ChunkSize(head) + HEAD))
      && Get(h.mem, Get(h.mem, u + FD) + BK) == u && Get(h.mem, Get(h.mem, u + BK) + FD) == u;
  }

  lemma LargeBelow(m: Mem, s: State, i: int, t: int, par: int, slot: int, tr: Trie, lo: int, w: int)
    requires Hangs(m, s, i, t, par, slot, tr, lo, w)
    ensures LargeOnly(s.b.bn, Elems(tr))
  {
    hide W, TrieOk, TreeRep, IsPow2, TreeIndex, Elems;
  }

  /** A child of u: where it is, what it is, and what sizes it spans. */
  datatype Child = Child(slot: int, tr: Trie, lo: int, w: int)

  function ChildOf(u: int, tr: Trie, lo: int, w: int, right: bool): Child
    requires tr.Node?
  {
    if right then Child(u + CHILD1, tr.right, lo + w / 2, w / 2) else Child(u + CHILD0, tr.left, lo, w / 2)
  }

  /** A child hangs from its parent, and is not it. */
  lemma ChildHangs(m: Mem, s: State, i: int, t: int, par: int, slot: int, tr: Trie, lo: int, w: int, c: Child,
                   right: bool)
    requires HeapOk(m, s) && Pending(s.cs) == {} && Hangs(m, s, i, t, par, slot, tr, lo, w)
    requires c == ChildOf(t, tr, lo, w, right) && W(m, c.slot) != 0
    ensures Hangs(m, s, i, W(m, c.slot), t, c.slot, c.tr, c.lo, c.w) && W(m, c.slot) != t
    ensures c.lo <= c.tr.size < c.lo + c.w
  {
    hide W, HeapOk, TrieOk, TreeRep, IsPow2, InTreeClass, Pending, Walkable, Readable, LargeOnly, Elems, RingAt;
    BinsHere(m, s);
    LargeBelow(m, s, i, t, par, slot, tr, lo, w);
    RootOf(m, s, i, t, par, slot, tr, lo, w);
    RootBinned(m, s, i, t, par, slot, tr, lo, w);
    TreeChunk(m, s, t);
    HangParts(m, s, i, t, par, slot, tr, lo, w);
    ChildStep(m, s, i, t, par, tr, lo, w, c, right);
  }

  lemma RootBinned(m: Mem, s: State, i: int, t: int, par: int, slot: int, tr: Trie, lo: int, w: int)
    requires HeapOk(m, s) && Pending(s.cs) == {} && Hangs(m, s, i, t, par, slot, tr, lo, w)
    ensures t in s.b.bn && s.b.bn[t] >= MIN_LARGE_SIZE && t in m
  {
    hide W, HeapOk, BinsOk, TrieOk, TreeRep, IsPow2, TreeIndex, Pending, Elems, BinnedIs;
    HangParts(m, s, i, t, par, slot, tr, lo, w);
    HeadInElems(m, t, par, i, tr);
    BinsHere(m, s);
    BinnedChunk(s.cs, s.b.bn, t);
    SizeFacts(m, s, t);
    ChunkMapped(m, s, t, t);
  }

  lemma ChildStep(m: Mem, s: State, i: int, t: int, par: int, tr: Trie, lo: int, w: int, c: Child, right: bool)
    requires tr.Node? && Walkable(m, t, par, i, tr, lo, w, s.b.bn) && Readable(m, s.b.bn)
    requires LargeOnly(s.b.bn, Elems(tr))
    requires c == ChildOf(t, tr, lo, w, right) && W(m, c.slot) != 0
    ensures c.tr.Node? && Walkable(m, W(m, c.slot), t, i, c.tr, c.lo, c.w, s.b.bn) && c.lo <= c.tr.size < c.lo + c.w
    ensures t !in Elems(c.tr) && W(m, c.slot) in Elems(c.tr) && Elems(c.tr) <= Elems(tr)
  {
    hide W, TrieOk, TreeRep, IsPow2, Readable, LargeOnly, Elems, NodeRep;
    TreeSearch.WalkStep(m, t, par, i, tr, lo, w, s.b.bn);
    WalkParts(m, t, par, i, tr, lo, w, s.b.bn);
    HeadInElems(m, t, par, i, tr);
    WideEnough(tr, lo, w, s.b.bn, c.tr, c.lo, right);
    WalkHead(m, W(m, c.slot), t, i, c.tr, c.lo, c.w, s.b.bn);
  }

  lemma WideEnough(tr: Trie, lo: int, w: int, bn: map<int, int>, ch: Trie, lo': int, right: bool)
    requires tr.Node? && TrieOk(tr, lo, w, bn) && w > 0
    requires ch == (if right then tr.right else tr.left) && lo' == if right then lo + w / 2 else lo
    ensures ch.Node? ==> w > 1 && lo' <= ch.size < lo' + w / 2 && forall p :: p in tr.ring ==> p !in Elems(ch)
  {
    PartsDisjoint(tr, lo, w, bn);
  }

  /** What do_check_tree does with a child, if there is one. */
  method CheckChild(h: Heap, u: int, child: int, ghost i: int, ghost par: int, ghost slot: int, ghost tr: Trie,
                    ghost lo: int, ghost w: int,
                    ghost c: Child, ghost right: bool)
      returns (ok: bool)
    requires h.Valid() && Hangs(h.mem, h.s, i, u, par, slot, tr, lo, w) && tr.Node? && c == ChildOf(u, tr, lo, w, right)
    requires child == W(h.mem, c.slot)
    ensures ok && (child != 0 ==> BinnedAt(h.mem, h.s, child) && c.lo <= h.s.b.bn[child] < c.lo + c.w)
    decreases tr, 0
  {
    hide W, HeapOk, AtLeast, AliasOk, Footprint, Pending, Hangs, BinnedAt;
    ok := true;
    if child != 0 {
      ChildHangs(h.mem, h.s, i, u, par, slot, tr, lo, w, c, right);
      RootOf(h.mem, h.s, i, child, u, c.slot, c.tr, c.lo, c.w);
      RingTurnOf(h.mem, h.s, i, child, u, c.slot, c.tr, c.lo, c.w, 0);
      AfterBinned(h.mem, h.s, child);
      ok := Get(h.mem, child + PARENT) == u && child != u;
      var rest := CheckTree(h, child, i, u, c.slot, c.tr, c.lo, c.w);
      ok := ok && rest;
    }
  }

  /** The rest of do_check_tree, for the chunk of the ring that is linked into the tree. */
  method CheckNode(h: Heap, u: int, ghost i: int, ghost par: int, ghost slot: int, ghost tr: Trie, ghost lo: int,
                   ghost w: int)
      returns (ok: bool)
    requires h.Valid() && Hangs(h.mem, h.s, i, u, par, slot, tr, lo, w)
    ensures ok
    decreases tr, 1
  {
    hide W, HeapOk, AtLeast, AliasOk, Footprint, Pending, ChunkSize, Hangs;
    RootOf(h.mem, h.s, i, u, par, slot, tr, lo, w);
    RingTurnOf(h.mem, h.s, i, u, par, slot, tr, lo, w, 0);
    NotOwnParent(h.mem, h.s, i, u, par, slot, tr, lo, w);
    UnderParent(h.mem, h.s, i, u, par, slot, tr, lo, w);
    var parent := Get(h.mem, u + PARENT);
    ok := parent != u && (Get(h.mem, parent + CHILD0) == u || Get(h.mem, parent + CHILD1) == u ||
                          Get(h.mem, parent) == u);
    var c0, c1 := Get(h.mem, u + CHILD0), Get(h.mem, u + CHILD1);
    var ok0 := CheckChild(h, u, c0, i, par, slot, tr, lo, w, ChildOf(u, tr, lo, w, false), false);
    var ok1 := CheckChild(h, u, c1, i, par, slot, tr, lo, w, ChildOf(u, tr, lo, w, true), true);
    ok := ok && ok0 && ok1;
    if c0 != 0 && c1 != 0 {
      ok := ok && ChunkSize(Get(h.mem, c0 + HEAD)) < ChunkSize(Get(h.mem, c1 + HEAD));
    }
  }

  lemma UnderParent(m: Mem, s: State, i: int, t: int, par: int, slot: int, tr: Trie, lo: int, w: int)
    requires Hangs(m, s, i, t, par, slot, tr, lo, w)
    ensures par + CHILD0 in m && par + CHILD1 in m && par in m
    ensures W(m, par + CHILD0) == t || W(m, par + CHILD1) == t || W(m, par) == t
  {
    hide W, Walkable, InTreeClass, Elems;
  }

  lemma NotOwnParent(m: Mem, s: State, i: int, t: int, par: int, slot: int, tr: Trie, lo: int, w: int)
    requires HeapOk(m, s) && Pending(s.cs) == {} && Hangs(m, s, i, t, par, slot, tr, lo, w)
    ensures par != t
  {
    hide W, HeapOk, TrieOk, TreeRep, IsPow2, InTreeClass, Pending;
    RootOf(m, s, i, t, par, slot, tr, lo, w);
    HangParts(m, s, i, t, par, slot, tr, lo, w);
    HeadInElems(m, t, par, i, tr);
  }

  /** do_check_tree. */
  method CheckTree(h: Heap, t: int, ghost i: int, ghost par: int, ghost slot: int, ghost tr: Trie, ghost lo: int,
                   ghost w: int)
      returns (ok: bool)
    requires h.Valid() && Hangs(h.mem, h.s, i, t, par, slot, tr, lo, w)
    ensures ok
    decreases tr, 2
  {
    hide W, HeapOk, AtLeast, AliasOk, Footprint, Pending, ChunkSize, Hangs, TreeIndex, Distinct, MinSizeForIndex;
    RootOf(h.mem, h.s, i, t, par, slot, tr, lo, w);
    RingTurnOf(h.mem, h.s, i, t, par, slot, tr, lo, w, 0);
    AfterBinned(h.mem, h.s, t);
    var tindex := Get(h.mem, t + INDEX);
    var tsize := ChunkSize(Get(h.mem, t + HEAD));
    var idx := TreeIndex(tsize);
    TreeIndexRange(tsize);
    ok := tindex == idx && tsize >= MIN_LARGE_SIZE && tsize >= MinSizeForIndex(idx) &&
      (idx == 31 || tsize < MinSizeForIndex(idx + 1));
    var head, u := 0, t;
    ghost var k := 0;
    while true
      invariant ok && tr.Node? && 0 <= k < |tr.ring| && u == tr.ring[k] && head == if k == 0 then 0 else t
      decreases |tr.ring| - k
    {
      RingTurnOf(h.mem, h.s, i, t, par, slot, tr, lo, w, k);
      var chunkOk := CheckRingChunk(h, u, tindex, tsize);
      ok := ok && chunkOk;
      if Get(h.mem, u + PARENT) == 0 {
        ParentPositive(h.mem, h.s, i, t, par, slot, tr, lo, w);
        ok := ok && Get(h.mem, u + CHILD0) == 0 && Get(h.mem, u + CHILD1) == 0;
      } else {
        ok := ok && head == 0;
        head := u;
        var rest := CheckNode(h, u, i, par, slot, tr, lo, w);
        ok := ok && rest;
      }
      AroundRing(tr.ring, k);
      u := Get(h.mem, u + FD);
      if u == t {
        break;
      }
      k := k + 1;
    }
    ok := ok && head != 0;
  }

  lemma ParentPositive(m: Mem, s: State, i: int, t: int, par: int, slot: int, tr: Trie, lo: int, w: int)
    requires Hangs(m, s, i, t, par, slot, tr, lo, w)
    ensures par > 0
  {
    hide W, Walkable, InTreeClass, Elems;
  }

  lemma AroundRing(r: seq<int>, k: int)
    requires 0 <= k < |r| && Distinct(r)
    ensures NextOf(r, k) == r[0] <==> k == |r| - 1
  {
  }

  /** do_check_treebin. */
  method CheckTreeBin(h: Heap, i: int) returns (ok: bool)
    requires h.Valid() && 0 <= i < 32
    ensures ok
  {
    hide W, HeapOk, AtLeast, AliasOk, Footprint, Pending, Hangs;
    TreeRoot(h.mem, h.s, i);
    var t := Get(h.mem, TB(i));
    var empty := !h.treemap[i];
    ok := t == 0 ==> empty;
    if !empty {
      var treeOk := CheckTree(h, t, i, TB(i), TB(i), h.s.b.trees[i], BinBase(i), BinWidth(i));
      ok := ok && treeOk;
    }
  }

  lemma TreeRoot(m: Mem, s: State, i: int)
    requires HeapOk(m, s) && Pending(s.cs) == {} && 0 <= i < 32
    ensures TB(i) in m && |s.b.trees| == 32
    ensures s.b.treemap[i] <==> W(m, TB(i)) != 0
    ensures s.b.treemap[i] ==> Hangs(m, s, i, W(m, TB(i)), TB(i), TB(i), s.b.trees[i], BinBase(i), BinWidth(i))
  {
    hide W, HeapOk, BinsOk, Readable, TreeRep, TrieOk, BinBase, BinWidth, TreesReady, InTreeClass, Walkable, Elems;
    BinsHere(m, s);
    TreesOf(m, s.b);
    BinReady(m, s.b, i, MIN_LARGE_SIZE);
    forall p | p in Elems(s.b.trees[i]) ensures p in s.b.bn && InTreeClass(s.b.bn[p], i) {
      OfClass(m, s.b, i, p);
    }
  }

  // The designated victim, top, and everything

  /** do_check_top_chunk. */
  method CheckTopChunk(h: Heap) returns (ok: bool)
    requires h.Valid() && h.top != 0
    ensures ok
  {
    hide W, HeapOk, AtLeast, AliasOk, Footprint, Pending, CInuse, PInuse, ChunkSize, HoldsAddress;
    TopWords(h.mem, h.s, h.leastAddr);
    var p := h.top;
    var sp, k := h.SegmentHolding(p);
    TopSegment(h.mem, h.s, k);
    var head := Get(h.mem, p + HEAD);
    var sz := ChunkSize(head);
    ok := sp != 0 && AnyChunk(p, head, h.leastAddr) && sz == h.topsize && sz > 0;
    ok := ok && sz == Get(h.mem, sp + SEG_BASE) + Get(h.mem, sp + SEG_SIZE) - p - TOP_FOOT_SIZE;
    ok := ok && PInuse(head) && !PInuse(Get(h.mem, p + sz + HEAD));
  }

  lemma TopWords(m: Mem, s: State, least: int)
    requires HeapOk(m, s) && AtLeast(least, s.g) && s.top != 0
    ensures s.top + HEAD in m && s.top + s.topsize + HEAD in m && s.top % 8 == 0 && s.top >= least && s.topsize > 0
    ensures ChunkSize(W(m, s.top + HEAD)) == s.topsize && PInuse(W(m, s.top + HEAD))
    ensures !PInuse(W(m, s.top + s.topsize + HEAD))
  {
    hide W, HeapOk, ShapeOk, ChunkSize, AtLeast, CInuse, PInuse;
    ShapeOf(m, s);
    TopPositive(m, s);
    TopPlace(s);
    HeadAt(m, s, s.top);
    AddressOk(m, s, least, s.top);
    OneChunk(s, s.top);
    ChunkMapped(m, s, s.top, s.top + s.topsize + HEAD);
    TopFoot(m, s);
    FootUnpinned();
  }

  lemma TopFoot(m: Mem, s: State)
    requires HeapOk(m, s) && s.order != [] && s.order[0] in s.g && s.top + s.topsize == s.g[s.order[0]].limit
    requires s.g[s.order[0]].rec == GM_SEG
    ensures W(m, s.top + s.topsize + HEAD) == TOP_FOOT_SIZE
  {
    hide W, ShapeOk, TagsOk, BinsOk, SegList, MappedOk;
    assert FenceOk(m, s.g[s.order[0]]);
  }

  lemma FootUnpinned()
    ensures !PInuse(TOP_FOOT_SIZE)
  {
  }

  /** The segment that holds top is the first of the list. */
  lemma TopSegment(m: Mem, s: State, k: int)
    requires HeapOk(m, s) && s.top != 0 && 0 <= k <= |s.order|
    requires k < |s.order| ==> s.order[k] in s.g && HoldsAddress(s.g[s.order[k]], s.top)
    requires forall j :: 0 <= j < k ==> s.order[j] in s.g && !HoldsAddress(s.g[s.order[j]], s.top)
    ensures k == 0 < |s.order| && s.order[0] in s.g
    ensures var sg := s.g[s.order[0]];
      && sg.rec + SEG_BASE in m && sg.rec + SEG_SIZE in m && W(m, sg.rec + SEG_BASE) == sg.base
      && W(m, sg.rec + SEG_SIZE) == sg.size
      && s.topsize == sg.base + sg.size - s.top - TOP_FOOT_SIZE
  {
    hide W, HeapOk, ShapeOk;
    ShapeOf(m, s);
    TopPositive(m, s);
    TopPlace(s);
    OneChunkBase(s, s.top);
    RecordReadable(m, s, 0);
  }

  /** The part of do_check_malloc_state about the designated victim. */
  method CheckVictim(h: Heap) returns (ok: bool)
    requires h.Valid()
    ensures ok
  {
    hide W, HeapOk, AtLeast, AliasOk, Footprint, Pending, ChunkSize, Recognized, FreeBehind, PInuse, CInuse;
    ok := true;
    if h.dvsize != 0 {
      VictimChunk(h.mem, h.s);
      PlainChunk(h.mem, h.s, h.leastAddr, h.dv);
      RecognizedTags(h.mem, h.s, h.dv);
      BinnedWide(h.mem, h.s, h.dv);
      var head := Get(h.mem, h.dv + HEAD);
      ok := AnyChunk(h.dv, head, h.leastAddr) && h.dvsize == ChunkSize(head) && h.dvsize >= MIN_CHUNK_SIZE;
      var found := FindInBins(h, h.dv);
      ok := ok && !found;
    }
  }

  lemma VictimChunk(m: Mem, s: State)
    requires HeapOk(m, s) && s.dvsize != 0
    ensures s.dv in s.cs && s.cs[s.dv].kind.Dv? && s.cs[s.dv].size == s.dvsize && s.dv !in s.b.bn
  {
    hide W, Tiling, Coalesced, TopOk, RecordPlace, TagsOk, FencesOk, BinsOk, SegList, MappedOk;
  }

  lemma TopNotBinned(m: Mem, s: State)
    requires HeapOk(m, s) && s.top != 0
    ensures s.top in s.cs && s.top !in s.b.bn
  {
    hide W, HeapOk, ShapeOk, BinnedIs, BinsOk;
    ShapeOf(m, s);
    TopPositive(m, s);
    TopPlace(s);
    BinsHere(m, s);
    if s.top in s.b.bn { BinnedChunk(s.cs, s.b.bn, s.top); }
  }

  /** do_check_malloc_state: no assertion fails in any valid state. */
  method CheckMallocState(h: Heap) returns (ok: bool)
    requires h.Valid()
    ensures ok
  {
    hide W, HeapOk, AtLeast, AliasOk, Footprint, Pending, ChunkSize;
    ok := true;
    for i := 0 to 32
      invariant ok
    {
      var binOk := CheckSmallBin(h, i);
      ok := ok && binOk;
    }
    for i := 0 to 32
      invariant ok
    {
      var binOk := CheckTreeBin(h, i);
      ok := ok && binOk;
    }
    var victimOk := CheckVictim(h);
    ok := ok && victimOk;
    if h.top != 0 {
      TopWords(h.mem, h.s, h.leastAddr);
      TopNotBinned(h.mem, h.s);
      var topOk := CheckTopChunk(h);
      ok := ok && topOk && h.topsize == ChunkSize(Get(h.mem, h.top + HEAD)) && h.topsize > 0;
      var found := FindInBins(h, h.top);
      ok := ok && !found;
    }
    var total, walkOk := TraverseAndCheck(h);
    ok := ok && walkOk && total <= h.footprint && h.footprint <= h.maxFootprint;
  }

  /** do_check_malloced_chunk: the block is no more than a minimal chunk larger than what was asked for. */
  method CheckMallocedChunk(h: Heap, mem: int, nb: int) returns (ok: bool)
    requires h.Valid() && (mem != 0 ==> Block(h.s, mem - 16, nb))
    ensures ok
  {
    hide W, HeapOk, AtLeast, AliasOk, Footprint, Pending, ChunkSize;
    ok := true;
    if mem != 0 {
      var p := mem - 16;
      NotFresh(h.s, p);
      HeadAt(h.mem, h.s, p);
      BinnedWide(h.mem, h.s, p);
      SizeFacts(h.mem, h.s, p);
      var sz := ChunkSize(Get(h.mem, p + HEAD));
      ok := CheckInuseChunk(h, p);
      ok := ok && sz % 8 == 0 && sz >= MIN_CHUNK_SIZE && sz >= nb && sz < nb + MIN_CHUNK_SIZE;
    }
  }

  ghost predicate Block(s: State, p: int, nb: int) {
    p in s.cs && s.cs[p].kind.User? && nb <= s.cs[p].size < nb + MIN_CHUNK_SIZE
  }

  lemma GaveBlockOf(m0: Mem, s0: State, m: Mem, s: State, p: int, nb: int)
    requires GaveSize(m0, s0, m, s, p, nb)
    ensures Block(s, p, nb)
  {
    hide W, HeapOk, Kept, Pending, Users;
    GaveUser(s.cs, Users(s0.cs), p, s.cs[p].size);
  }

  lemma GaveUser(cs: Chunks, u: map<int, int>, p: int, size: int)
    requires Users(cs) == u[p := size]
    ensures p in cs && cs[p].kind.User?
  {
    assert p in Users(cs);
  }

  /** dlmalloc with its checks switched on: the result passes, and so does the heap that the next operation starts
      from. */
  method CheckedMalloc(h: Heap, bytes: int) returns (r: int, ok: bool)
    requires h.Valid() && 0 <= bytes < TWO64
    modifies h
    ensures h.Valid() && ok
    ensures r != 0 ==> Block(h.s, r - 16, Request(bytes))
  {
    hide W, HeapOk, AtLeast, AliasOk, Footprint, Pending, GaveSize, NeedsMore, Request, Serves, Block;
    ghost var m0, s0 := h.mem, h.s;
    r := h.Malloc(bytes);
    if r != 0 { GaveBlockOf(m0, s0, h.mem, h.s, r - 16, Request(bytes)); }
    ok := CheckMallocedChunk(h, r, Request(bytes));
    var stateOk := CheckMallocState(h);
    ok := ok && stateOk;
  }
}
