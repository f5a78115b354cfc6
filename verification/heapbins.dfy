/** Insertion into bins and removal from small bins as changes of the whole heap. */
module HeapBins {
  import opened BinIndex
  import opened BitMaps
  import opened Bins
  import opened HeapState
  import opened HeapSteps
  import opened HeapUnlink
  import opened Rings
  import opened Tiles
  import opened Tries
  import opened TrieMem
  import opened TreeOps
  import opened TreeRemove
  import opened TreeSearch
  import opened Words

  lemma InsertSmallDone(m0: Mem, m: Mem, s: State, p: int, f: int)
    requires HeapOk(m0, s) && p in s.cs && s.cs[p].kind.Loose? && IsSmall(s.cs[p].size) && |s.b.small| == 32
    requires var i := SmallIndex(s.cs[p].size);
      && 0 <= i < 32
      && f == (if s.b.smallmap[i] then W(m0, SB(i) + FD) else SB(i))
      && SB(i) + FD in m0 && f + BK in m0 && p + FD in m0 && p + BK in m0
      && m == Put(Put(Put(Put(m0, SB(i) + FD, p), f + BK, p), p + FD, f), p + BK, SB(i))
    ensures var i := SmallIndex(s.cs[p].size);
      HeapOk(m, s.(b := InsertedSmall(s.b, i, p), cs := Rekind(s.cs, p, Binned))) && FreeWordsOnly(m0, m, s.cs)
    ensures var i := SmallIndex(s.cs[p].size); var b' := InsertedSmall(s.b, i, p);
      b'.treemap == s.b.treemap && b'.smallmap == if s.b.smallmap[i] then s.b.smallmap else Mark(s.b.smallmap, i)
    ensures m.Keys == m0.Keys
  {
    hide W, HeapOk, FreeWordsOnly, SmallLinkedIn, BnOk, BinsOk, KeptOutside, Rekind;
    var i := SmallIndex(s.cs[p].size);
    SmallPlace(m0, s, p);
    SmallPuts(m0, m, i, f, p);
    InsertSmallOk(m0, m, s.b, i, f, p);
    var all := s.b.bn[p := s.cs[p].size];
    assert all.Keys == s.b.bn.Keys + {p};
    BinStep(m0, m, s, InsertedSmall(s.b, i, p), p);
  }

  ghost predicate FarFrom(f: int, p: int) {
    f >= GM_END && f % 8 == 0 && (f + 32 <= p || p + 32 <= f)
  }

  /** What insert_small_chunk relies on. */
  lemma SmallPlace(m: Mem, s: State, p: int)
    requires HeapOk(m, s) && p in s.cs && s.cs[p].kind.Loose? && IsSmall(s.cs[p].size)
    ensures var i := SmallIndex(s.cs[p].size);
      && 4 <= i < 32 && s.cs[p].size == 8 * i && BinsOk(m, s.b) && |s.b.small| == 32
      && p !in s.b.bn && BnOk(s.b.bn[p := 8 * i])
      && SB(i) + FD in m && SB(i) + BK in m && p + FD in m && p + BK in m && p >= GM_END
      && (s.b.smallmap[i] ==> FarFrom(W(m, SB(i) + FD), p) && W(m, SB(i) + FD) + BK in m)
      && p % 8 == 0
  {
    hide W, Linked, Firsts, Coalesced, DvOk, TopOk, RecordPlace, SegList, FencesOk, TagsOk, TreeBins;
    var i := SmallIndex(s.cs[p].size);
    BnAdd(m, s, p);
    ChunkMapped(m, s, p, p + FD);
    ChunkMapped(m, s, p, p + BK);
    FrontOfBin(m, s.b, i);
    if s.b.smallmap[i] {
      var f := W(m, SB(i) + FD);
      ChunkMapped(m, s, f, f + BK);
    }
  }

  /** A loose chunk can be added to the binned ones. */
  lemma BnAdd(m: Mem, s: State, p: int)
    requires HeapOk(m, s) && p in s.cs && s.cs[p].kind.Loose?
    ensures p !in s.b.bn && BnOk(s.b.bn[p := s.cs[p].size]) && TilesOf(s.b.bn[p := s.cs[p].size], s.cs)
    ensures s.cs[p].size >= MIN_CHUNK_SIZE && s.cs[p].size % 8 == 0
  {
    hide *;
    var size := s.cs[p].size;
    var bn := s.b.bn[p := size];
    ShapeOf(m, s);
    LooseUnbinned(s, p);
    forall q | q in bn
      ensures q in s.cs && s.cs[q].size == bn[q] && FreeKind(s.cs[q].kind) && ChunkOk(q, bn[q])
    {
      if q != p {
        BinnedChunk(s, q);
      }
      FreeChunkOk(s, q);
    }
    forall q, r | q in bn && r in bn && q != r
      ensures q + bn[q] <= r || r + bn[r] <= q
    {
      TilesApart(s, q, r);
    }
    BnFrom(bn);
    FreeTiles(bn, s.cs);
    ChunkBounds(p, size);
  }

  lemma LooseUnbinned(s: State, p: int)
    requires ShapeOk(s) && p in s.cs && s.cs[p].kind.Loose?
    ensures p !in s.b.bn && FreeKind(s.cs[p].kind)
  {
    hide Tiling, Coalesced, DvOk, TopOk, RecordPlace;
  }

  lemma BinnedChunk(s: State, q: int)
    requires ShapeOk(s) && q in s.b.bn
    ensures q in s.cs && FreeKind(s.cs[q].kind) && s.cs[q].size == s.b.bn[q]
  {
    hide Tiling, Coalesced, DvOk, TopOk, RecordPlace;
  }

  lemma FreeChunkOk(s: State, q: int)
    requires ShapeOk(s) && q in s.cs && FreeKind(s.cs[q].kind)
    ensures ChunkOk(q, s.cs[q].size)
  {
    hide Coalesced, BinnedIs, DvOk, TopOk, RecordPlace, Linked, NoOverlap, Firsts;
    assert SegOk(s.g[s.cs[q].home]);
  }

  lemma TilesApart(s: State, q: int, r: int)
    requires ShapeOk(s) && q in s.cs && r in s.cs && q != r
    ensures q + s.cs[q].size <= r || r + s.cs[r].size <= q
  {
    hide Coalesced, BinnedIs, DvOk, TopOk, RecordPlace, Linked, Homes, SegsOk, Firsts;
  }

  lemma BnFrom(bn: map<int, int>)
    requires forall q :: q in bn ==> ChunkOk(q, bn[q])
    requires forall q, r :: q in bn && r in bn && q != r ==> q + bn[q] <= r || r + bn[r] <= q
    ensures BnOk(bn)
  {
    hide ChunkOk;
  }

  lemma FreeTiles(bn: map<int, int>, cs: Chunks)
    requires forall q :: q in bn ==> q in cs && cs[q].size == bn[q] && FreeKind(cs[q].kind)
    ensures TilesOf(bn, cs)
  {
  }

  lemma ChunkBounds(p: int, size: int)
    requires ChunkOk(p, size)
    ensures size >= MIN_CHUNK_SIZE && size % 8 == 0
  {
  }

  /** Four stores link p in. */
  lemma SmallPuts(m0: Mem, m: Mem, i: int, f: int, p: int)
    requires 0 <= i < 32 && p >= GM_END && p % 8 == 0 && (f == SB(i) || FarFrom(f, p))
    requires SB(i) + FD in m0 && f + BK in m0 && p + FD in m0 && p + BK in m0
    requires m == Put(Put(Put(Put(m0, SB(i) + FD, p), f + BK, p), p + FD, f), p + BK, SB(i))
    ensures SmallLinkedIn(m0, m, i, f, p) && m.Keys == m0.Keys
  {
    hide W;
  }

  /** The heap with small chunk p out of its bin. */
  ghost function UnbinnedSmall(s: State, p: int): State
    requires p in s.cs
  {
    var i := SmallIndex(s.cs[p].size);
    if !(0 <= i < 32 && |s.b.small| == 32 && p in s.b.small[i]) then s else
    s.(b := RemovedSmall(s.b, i, IndexOf(s.b.small[i], p)), cs := Rekind(s.cs, p, Loose))
  }

  /** What unlink_small_chunk relies on. */
  lemma SmallOut(m: Mem, s: State, p: int)
    requires HeapOk(m, s) && p in s.cs && s.cs[p].kind.Binned? && IsSmall(s.cs[p].size)
    ensures var i := SmallIndex(s.cs[p].size); var f, k := W(m, p + FD), W(m, p + BK);
      && 4 <= i < 32 && s.cs[p].size == 8 * i && |s.b.small| == 32 && p in s.b.small[i]
      && p + FD in m && p + BK in m && f + BK in m && k + FD in m
      && (f == k <==> |s.b.small[i]| == 1)
      && f % 8 == 0 && k % 8 == 0 && (f == k || f + 16 <= k || k + 16 <= f)
  {
    hide W, HeapOk, BinsOk, RingRep, Spaced, NextOf, PrevOf, SmallBin, BnOk;
    var i := SmallIndex(s.cs[p].size);
    SmallHome(m, s, p);
    var j := IndexOf(s.b.small[i], p);
    SmallNeighbours(m, s.b, i, j);
    assert ([SB(i)] + s.b.small[i])[j + 1] == p;
    NeighboursBinned(m, s.b, i, j);
    ChunkMapped(m, s, p, p + FD);
    ChunkMapped(m, s, p, p + BK);
    NeighbourMapped(m, s, W(m, p + FD), i);
    NeighbourMapped(m, s, W(m, p + BK), i);
    SpacedNodes(s.b.bn, i, W(m, p + FD), W(m, p + BK));
  }

  lemma SmallHome(m: Mem, s: State, p: int)
    requires HeapOk(m, s) && p in s.cs && s.cs[p].kind.Binned? && IsSmall(s.cs[p].size)
    ensures var i := SmallIndex(s.cs[p].size);
      && 4 <= i < 32 && s.cs[p].size == 8 * i && |s.b.small| == 32 && p in s.b.small[i]
      && SmallBin(m, s.b.smallmap, i, s.b.small[i], s.b.bn) && BnOk(s.b.bn) && BinsOk(m, s.b)
  {
    hide W, Tiling, Coalesced, DvOk, TopOk, RecordPlace, SegList, FencesOk, TagsOk, MappedOk, TreeBins, RingRep,
      Distinct;
    var i := SmallIndex(s.cs[p].size);
    assert p in s.b.bn && s.b.bn[p] == s.cs[p].size;
    assert ChunkOk(p, s.b.bn[p]);
    assert SmallBin(m, s.b.smallmap, i, s.b.small[i], s.b.bn);
  }

  lemma SpacedNodes(bn: map<int, int>, i: int, f: int, k: int)
    requires BnOk(bn) && 0 <= i < 32 && (f == SB(i) || f in bn) && (k == SB(i) || k in bn)
    ensures f % 8 == 0 && k % 8 == 0 && (f == k || f + 16 <= k || k + 16 <= f)
  {
  }

  lemma NeighbourMapped(m: Mem, s: State, f: int, i: int)
    requires HeapOk(m, s) && 0 <= i < 32 && (f == SB(i) || f in s.b.bn)
    ensures f + FD in m && f + BK in m
  {
    hide W, Linked, Firsts, Coalesced, DvOk, TopOk, RecordPlace, SegList, FencesOk, TagsOk, BinsOk;
    if f in s.b.bn {
      ChunkMapped(m, s, f, f + FD);
      ChunkMapped(m, s, f, f + BK);
    }
  }

  /** What unlinking small chunk p has done. */
  ghost predicate SmallGone(m0: Mem, m: Mem, s: State, p: int) {
    && p in s.cs
    && var i := SmallIndex(s.cs[p].size); var b' := UnbinnedSmall(s, p).b;
    && 4 <= i < 32 && |s.b.small| == 32 && p in s.b.small[i]
    && HeapOk(m, UnbinnedSmall(s, p)) && m.Keys == m0.Keys && FreeWordsOnly(m0, m, s.cs)
    && b'.treemap == s.b.treemap
    && b'.smallmap == if W(m0, p + FD) == W(m0, p + BK) then Clear(s.b.smallmap, i) else s.b.smallmap
  }

  lemma UnlinkSmallDone(m0: Mem, m: Mem, s: State, p: int)
    requires HeapOk(m0, s) && p in s.cs && s.cs[p].kind.Binned? && IsSmall(s.cs[p].size)
    requires var f, k := W(m0, p + FD), W(m0, p + BK);
      if f == k then m == m0 else f + BK in m0 && k + FD in m0 && m == Put(Put(m0, f + BK, k), k + FD, f)
    ensures SmallGone(m0, m, s, p)
  {
    hide W, HeapOk, FreeWordsOnly, BinsOk, KeptOutside, Rekind, Clear;
    var i := SmallIndex(s.cs[p].size);
    SmallOut(m0, s, p);
    var j := IndexOf(s.b.small[i], p);
    BinsOf(m0, s);
    OutPuts(m0, m, s, p);
    RemoveSmallOk(m0, m, s.b, i, j);
    UnbinStep(m0, m, s, RemovedSmall(s.b, i, j), p);
  }

  lemma OutPuts(m0: Mem, m: Mem, s: State, p: int)
    requires var f, k := W(m0, p + FD), W(m0, p + BK);
      if f == k then m == m0 else f + BK in m0 && k + FD in m0 && m == Put(Put(m0, f + BK, k), k + FD, f)
    requires var f, k := W(m0, p + FD), W(m0, p + BK);
      f % 8 == 0 && k % 8 == 0 && (f == k || f + 16 <= k || k + 16 <= f)
    ensures SmallLinkedOut(m0, m, W(m0, p + FD), W(m0, p + BK)) && m.Keys == m0.Keys
  {
    hide W;
  }

  lemma FirstSmall(m: Mem, s: State, i: int)
    requires HeapOk(m, s) && 0 <= i < 32 && s.b.smallmap[i]
    ensures var p := W(m, SB(i) + FD);
      && SB(i) + FD in m && p in s.cs && s.cs[p].kind.Binned? && s.cs[p].size == 8 * i && W(m, p + BK) == SB(i)
  {
    hide W, Linked, Firsts, Coalesced, DvOk, TopOk, RecordPlace, SegList, FencesOk, TagsOk, TreeBins, RingRep, Spaced,
      NextOf;
    FrontOfBin(m, s.b, i);
    SmallNeighbours(m, s.b, i, 0);
  }

  lemma PutsCommute(m: Mem, a: int, v: int, c: int, w: int)
    requires a in m && c in m && a != c
    ensures Put(Put(m, a, v), c, w) == Put(Put(m, c, w), a, v)
  {
  }

  lemma FirstPuts(m0: Mem, m: Mem, b: int, f: int)
    requires f + BK in m0 && b + FD in m0 && (b == f || b + 16 <= f || f + 16 <= b) && b % 8 == 0 && f % 8 == 0
    requires if b == f then m == m0 else m == Put(Put(m0, b + FD, f), f + BK, b)
    ensures if f == b then m == m0 else m == Put(Put(m0, f + BK, b), b + FD, f)
  {
    hide Put;
    if b != f {
      PutsCommute(m0, b + FD, f, f + BK, b);
    }
  }

  // insert_large_chunk

  /** The heap with large loose chunk x in its tree bin. */
  ghost function BinnedLarge(s: State, x: int): State
    requires x in s.cs
  {
    if !(0 <= TreeIndex(s.cs[x].size) < 32 && |s.b.trees| == 32) then s else
    s.(b := InsertedLarge(s.b, TreeIndex(s.cs[x].size), x, s.cs[x].size), cs := Rekind(s.cs, x, Binned))
  }

  lemma LargePlace(m: Mem, s: State, x: int)
    requires HeapOk(m, s) && x in s.cs && s.cs[x].kind.Loose? && !IsSmall(s.cs[x].size)
    ensures var sz := s.cs[x].size; var i := TreeIndex(sz);
      && 0 <= i < 32 && TreeBinAt(m, s.b, i) && |s.b.trees| == 32 && (s.b.treemap[i] <==> s.b.trees[i].Node?)
      && x !in s.b.bn && BnOk(s.b.bn) && BnOk(s.b.bn[x := sz]) && InTreeClass(sz, i) && MIN_LARGE_SIZE <= sz < TWO64
      && TB(i) in m && (forall a :: x <= a < x + TCHUNK_SIZE ==> a in m) && x >= GM_END
      && BinBase(i) <= sz < BinBase(i) + BinWidth(i)
  {
    hide W, Linked, Firsts, Coalesced, DvOk, TopOk, RecordPlace, SegList, FencesOk, TagsOk, SmallBins, TreeIndex,
      BinBase, BinWidth, TreeRep, TrieOk;
    BnAdd(m, s, x);
    var sz := s.cs[x].size;
    assert ChunkOk(x, s.b.bn[x := sz][x]);
    TreeIndexRange(sz);
    BinRange(TreeIndex(sz));
    forall a | x <= a < x + TCHUNK_SIZE ensures a in m {
      ChunkMapped(m, s, x, a);
    }
    assert TreeBin(m, s.b.treemap, TreeIndex(sz), s.b.trees[TreeIndex(sz)], s.b.bn);
  }

  /** The first three stores set up x as a node without children. */
  ghost predicate LargePrep(m0: Mem, m1: Mem, x: int, i: int) {
    && m1.Keys == m0.Keys
    && W(m1, x + INDEX) == i && W(m1, x + CHILD0) == 0 && W(m1, x + CHILD1) == 0
    && forall a :: a != x + INDEX && a != x + CHILD0 && a != x + CHILD1 ==> W(m1, a) == W(m0, a)
  }

  lemma PrepPuts(m0: Mem, m1: Mem, x: int, i: int)
    requires x + INDEX in m0 && x + CHILD0 in m0 && x + CHILD1 in m0
    requires m1 == Put(Put(Put(m0, x + INDEX, i), x + CHILD0, 0), x + CHILD1, 0)
    ensures LargePrep(m0, m1, x, i)
  {
    hide W;
  }

  lemma LargeReady(m0: Mem, m1: Mem, s: State, x: int)
    requires HeapOk(m0, s) && x in s.cs && s.cs[x].kind.Loose? && !IsSmall(s.cs[x].size)
    requires var i := TreeIndex(s.cs[x].size);
      && x + INDEX in m0 && x + CHILD0 in m0 && x + CHILD1 in m0
      && m1 == Put(Put(Put(m0, x + INDEX, i), x + CHILD0, 0), x + CHILD1, 0)
    ensures var i := TreeIndex(s.cs[x].size);
      && 0 <= i < 32 && |s.b.trees| == 32 && LargePrep(m0, m1, x, i) && Readable(m1, s.b.bn)
      && LargeOnly(s.b.bn, Elems(s.b.trees[i]))
      && Walkable(m1, W(m1, TB(i)), TB(i), i, s.b.trees[i], BinBase(i), BinWidth(i), s.b.bn)
      && TreeBinAt(m1, s.b, i)
  {
    hide W, HeapOk, FreeWordsOnly, TreeIndex, BinBase, BinWidth, TreeRep, TrieOk, TreeBin, LargePrep, BnOk, LargeOnly,
      Readable, Elems, Walkable;
    var i := TreeIndex(s.cs[x].size);
    LargePlace(m0, s, x);
    PrepPuts(m0, m1, x, i);
    PrepTree(m0, m1, s, x, i);
    PrepReadable(m0, m1, s, x, i);
    TreeWalkable(m1, s.b, i);
  }

  lemma TreeWalkable(m: Mem, b: BinState, i: int)
    requires TreeBinAt(m, b, i) && BnOk(b.bn)
    ensures LargeOnly(b.bn, Elems(b.trees[i]))
    ensures Walkable(m, W(m, TB(i)), TB(i), i, b.trees[i], BinBase(i), BinWidth(i), b.bn)
  {
    hide W, TreeIndex, TreeRep, TrieOk, BinBase, BinWidth;
    BinRange(i);
  }

  lemma PrepTree(m0: Mem, m1: Mem, s: State, x: int, i: int)
    requires TreeBinAt(m0, s.b, i) && LargePrep(m0, m1, x, i) && x in s.cs && x !in s.b.bn
    requires BnOk(s.b.bn[x := s.cs[x].size]) && x >= GM_END
    requires s.cs[x].size >= MIN_LARGE_SIZE
    ensures TreeBinAt(m1, s.b, i)
  {
    hide W, TreeIndex, TreeRep, TrieOk;
    var all := s.b.bn[x := s.cs[x].size];
    forall p | p in Elems(s.b.trees[i])
      ensures SameNode(m0, m1, p) && SameKids(m0, m1, p)
    {
      assert p in all && x in all && all[p] >= MIN_LARGE_SIZE;
    }
    TreeBinFrame(m0, m1, s.b.treemap, s.b.treemap, i, s.b.trees[i], s.b.bn, s.b.bn);
  }

  lemma PrepReadable(m0: Mem, m1: Mem, s: State, x: int, i: int)
    requires HeapOk(m0, s) && LargePrep(m0, m1, x, i) && x in s.cs && x !in s.b.bn && BnOk(s.b.bn[x := s.cs[x].size])
    requires s.cs[x].size >= MIN_LARGE_SIZE
    ensures Readable(m1, s.b.bn)
  {
    hide W, HeapOk, FreeWordsOnly, ChunkSize;
    BinnedReadable(m0, s);
    var all := s.b.bn[x := s.cs[x].size];
    forall p | p in s.b.bn
      ensures W(m1, p + HEAD) == W(m0, p + HEAD)
    {
      assert p in all && x in all;
    }
  }

  lemma EmptySlot(t: Trie, sz: int, i: int)
    requires t.Nil?
    ensures SameSizeNode(t, sz, BinBase(i), BinWidth(i)).Nil?
    ensures InsertSlot(t, sz, BinBase(i), BinWidth(i), TB(i)) == TB(i)
    ensures InsertParent(t, sz, BinBase(i), BinWidth(i), TB(i)) == TB(i)
  {
  }

  lemma SlotMapped(m: Mem, s: State, i: int, sz: int)
    requires TreeBinAt(m, s.b, i) && BnOk(s.b.bn) && Readable(m, s.b.bn) && TB(i) in m
    requires SameSizeNode(s.b.trees[i], sz, BinBase(i), BinWidth(i)).Nil?
    ensures InsertSlot(s.b.trees[i], sz, BinBase(i), BinWidth(i), TB(i)) in m
  {
    hide W, TreeIndex, TreeRep, TrieOk, BinBase, BinWidth, BnOk;
    SlotPlace(m, s.b, i, sz);
  }

  lemma ChainMapped(m: Mem, s: State, i: int, x: int, sz: int)
    requires TreeBinAt(m, s.b, i) && BnOk(s.b.bn) && Readable(m, s.b.bn)
    requires SameSizeNode(s.b.trees[i], sz, BinBase(i), BinWidth(i)).Node?
    ensures var h := HeadOf(SameSizeNode(s.b.trees[i], sz, BinBase(i), BinWidth(i)));
      h + FD in m && W(m, h + FD) + BK in m
  {
    hide W, TreeIndex, TreeRep, TrieOk, BinBase, BinWidth, BnOk;
    TreeApart(m, s.b, i);
    HeadAndNext(m, s.b, i, x, sz);
  }

  lemma MarkAgain(map0: Bits, i: int)
    requires 0 <= i < 32
    ensures map0[i] ==> Mark(map0, i) == map0
  {
  }

  ghost predicate LargeInsertion(m0: Mem, m1: Mem, s: State, x: int) {
    && HeapOk(m0, s) && x in s.cs && s.cs[x].kind.Loose? && !IsSmall(s.cs[x].size)
    && 0 <= TreeIndex(s.cs[x].size) < 32 && |s.b.trees| == 32
    && LargePrep(m0, m1, x, TreeIndex(s.cs[x].size))
  }

  /** *C = X; X->parent = T; X->fd = X->bk = X. */
  function LeafStores(m: Mem, x: int, slot: int, owner: int): Mem
    requires slot in m && x + PARENT in m && x + FD in m && x + BK in m
  {
    Put(Put(Put(Put(m, slot, x), x + PARENT, owner), x + FD, x), x + BK, x)
  }

  /** T->fd = F->bk = X; X->fd = F; X->bk = T; X->parent = 0. */
  function ChainStores(m: Mem, x: int, h: int, f: int): Mem
    requires h + FD in m && f + BK in m && x + PARENT in m && x + FD in m && x + BK in m
  {
    Put(Put(Put(Put(Put(m, h + FD, x), f + BK, x), x + FD, f), x + BK, h), x + PARENT, 0)
  }

  lemma StartInsertion(m0: Mem, m1: Mem, s: State, x: int)
    requires HeapOk(m0, s) && x in s.cs && s.cs[x].kind.Loose? && !IsSmall(s.cs[x].size)
    requires 0 <= TreeIndex(s.cs[x].size) < 32 && |s.b.trees| == 32
    requires LargePrep(m0, m1, x, TreeIndex(s.cs[x].size))
    ensures LargeInsertion(m0, m1, s, x)
  {
  }

  lemma LeafPuts(m0: Mem, m1: Mem, m: Mem, x: int, i: int, slot: int, owner: int)
    requires LargePrep(m0, m1, x, i) && x > 0 && x % 8 == 0 && (slot < x + FD || slot >= x + TCHUNK_SIZE)
    requires slot in m1 && x + PARENT in m1 && x + FD in m1 && x + BK in m1
    requires m == LeafStores(m1, x, slot, owner)
    ensures LeafWrites(m0, m, i, x, slot, owner) && m.Keys == m0.Keys
  {
    hide W;
  }

  /** The heap after x has been hung in as a new leaf. */
  lemma InsertLeafDone(m0: Mem, m1: Mem, m: Mem, s: State, x: int, slot: int, owner: int)
    requires LargeInsertion(m0, m1, s, x)
    requires var sz := s.cs[x].size; var i := TreeIndex(sz); var t := s.b.trees[i];
      && SameSizeNode(t, sz, BinBase(i), BinWidth(i)).Nil?
      && slot == InsertSlot(t, sz, BinBase(i), BinWidth(i), TB(i))
      && owner == InsertParent(t, sz, BinBase(i), BinWidth(i), TB(i))
      && slot in m1 && x + PARENT in m1 && x + FD in m1 && x + BK in m1
      && m == LeafStores(m1, x, slot, owner)
    ensures HeapOk(m, BinnedLarge(s, x)) && m.Keys == m0.Keys && FreeWordsOnly(m0, m, s.cs)
    ensures var b' := BinnedLarge(s, x).b;
      b'.smallmap == s.b.smallmap && b'.treemap == Mark(s.b.treemap, TreeIndex(s.cs[x].size))
  {
    hide W, HeapOk, FreeWordsOnly, TreeIndex, BinBase, BinWidth, LargePrep, BnOk, BinsOk, KeptOutside, Rekind, TreeBin,
      LeafWrites, SmallBins, TreeBins, LeafStores;
    var sz := s.cs[x].size;
    var i := TreeIndex(sz);
    LargePlace(m0, s, x);
    SlotAway(m0, s, x, i);
    LeafPuts(m0, m1, m, x, i, slot, owner);
    InsertLeafOwn(m0, m, s.b, i, x, sz);
    LeafWritesKept(m0, m, s.b, i, x, sz);
    TreeInserted(m0, m, s, x, i);
  }

  lemma SlotAway(m: Mem, s: State, x: int, i: int)
    requires HeapOk(m, s) && x in s.cs && s.cs[x].kind.Loose? && !IsSmall(s.cs[x].size) && i == TreeIndex(s.cs[x].size)
    requires 0 <= i < 32 && |s.b.trees| == 32 && SameSizeNode(s.b.trees[i], s.cs[x].size, BinBase(i), BinWidth(i)).Nil?
    ensures var slot := InsertSlot(s.b.trees[i], s.cs[x].size, BinBase(i), BinWidth(i), TB(i));
      slot < x + FD || slot >= x + TCHUNK_SIZE
    ensures x > 0 && x % 8 == 0
  {
    hide W, HeapOk, FreeWordsOnly, TreeIndex, BinBase, BinWidth, TreeRep, TrieOk, BnOk;
    LargePlace(m, s, x);
    ApartFromNew(m, s.b, i, x, s.cs[x].size);
    SlotPlace(m, s.b, i, s.cs[x].size);
    ChunkMapped(m, s, x, x);
  }

  /** The other bins and the rest of the heap after an insertion into tree i. */
  lemma TreeInserted(m0: Mem, m: Mem, s: State, x: int, i: int)
    requires HeapOk(m0, s) && x in s.cs && s.cs[x].kind.Loose? && !IsSmall(s.cs[x].size) && i == TreeIndex(s.cs[x].size)
    requires 0 <= i < 32 && |s.b.trees| == 32 && m.Keys == m0.Keys
    requires TreeBinAt(m, InsertedLarge(s.b, i, x, s.cs[x].size), i)
    requires KeptOutside(m0, m, s.b.bn[x := s.cs[x].size], Elems(s.b.trees[i]) + {x}, TB(i), TB(i) + 8)
    ensures HeapOk(m, BinnedLarge(s, x)) && FreeWordsOnly(m0, m, s.cs)
  {
    hide W, HeapOk, FreeWordsOnly, TreeIndex, BinBase, BinWidth, BnOk, KeptOutside, Rekind, TreeBin, SmallBins,
      TreeBins, Elems, Insert;
    var sz := s.cs[x].size;
    var all := s.b.bn[x := sz];
    var e := Elems(s.b.trees[i]) + {x};
    LargePlace(m0, s, x);
    BinsOf(m0, s);
    TreeMembers(m0, s.b, i);
    BinsParts(m0, s.b);
    assert forall p :: p in e ==> p in all;
    TreeOpKeeps(m0, m, s.b, InsertedLarge(s.b, i, x, sz), i, all, e);
    KeptWidens(m0, m, all, e, TB(i), TB(i) + 8);
    BinStep(m0, m, s, InsertedLarge(s.b, i, x, sz), x);
  }

  lemma ChainPuts(m0: Mem, m1: Mem, m: Mem, x: int, i: int, h: int, f: int)
    requires LargePrep(m0, m1, x, i) && x % 8 == 0 && h % 8 == 0 && f % 8 == 0
    requires (h + TCHUNK_SIZE <= x || x + TCHUNK_SIZE <= h) && (f + TCHUNK_SIZE <= x || x + TCHUNK_SIZE <= f)
    requires f == W(m0, h + FD) && h + FD in m1 && f + BK in m1 && x + FD in m1 && x + BK in m1 && x + PARENT in m1
    requires m == ChainStores(m1, x, h, f)
    ensures ChainWrites(m0, m, i, x, h) && m.Keys == m0.Keys
  {
    hide W;
  }

  /** The heap after x has been linked behind h, the tree chunk of its size. */
  lemma InsertChainDone(m0: Mem, m1: Mem, m: Mem, s: State, x: int, h: int, f: int)
    requires LargeInsertion(m0, m1, s, x)
    requires var sz := s.cs[x].size; var i := TreeIndex(sz); var t := s.b.trees[i];
      && SameSizeNode(t, sz, BinBase(i), BinWidth(i)).Node? && h == HeadOf(SameSizeNode(t, sz, BinBase(i), BinWidth(i)))
      && f == W(m1, h + FD) && h + FD in m1 && f + BK in m1 && x + FD in m1 && x + BK in m1 && x + PARENT in m1
      && m == ChainStores(m1, x, h, f)
    ensures HeapOk(m, BinnedLarge(s, x)) && m.Keys == m0.Keys && FreeWordsOnly(m0, m, s.cs)
    ensures var b' := BinnedLarge(s, x).b;
      b'.smallmap == s.b.smallmap && b'.treemap == Mark(s.b.treemap, TreeIndex(s.cs[x].size))
  {
    hide W, HeapOk, FreeWordsOnly, TreeIndex, BinBase, BinWidth, BnOk, BinsOk, KeptOutside, Rekind, TreeBin,
      ChainWrites, SmallBins, TreeBins, ChainStores, Elems;
    var sz := s.cs[x].size;
    var i := TreeIndex(sz);
    LargePlace(m0, s, x);
    ChainAway(m0, s, x, i, h);
    ChainPuts(m0, m1, m, x, i, h, f);
    InsertChainOwn(m0, m, s.b, i, x, sz);
    TreeInserted(m0, m, s, x, i);
  }

  lemma ChainAway(m: Mem, s: State, x: int, i: int, h: int)
    requires HeapOk(m, s) && x in s.cs && s.cs[x].kind.Loose? && !IsSmall(s.cs[x].size) && i == TreeIndex(s.cs[x].size)
    requires 0 <= i < 32 && |s.b.trees| == 32 && SameSizeNode(s.b.trees[i], s.cs[x].size, BinBase(i), BinWidth(i)).Node?
    requires h == HeadOf(SameSizeNode(s.b.trees[i], s.cs[x].size, BinBase(i), BinWidth(i)))
    ensures x % 8 == 0 && h % 8 == 0 && W(m, h + FD) % 8 == 0
    ensures h + TCHUNK_SIZE <= x || x + TCHUNK_SIZE <= h
    ensures var f := W(m, h + FD); f + TCHUNK_SIZE <= x || x + TCHUNK_SIZE <= f
  {
    hide W, HeapOk, FreeWordsOnly, TreeIndex, BinBase, BinWidth, TreeRep, TrieOk;
    LargePlace(m, s, x);
    ApartFromNew(m, s.b, i, x, s.cs[x].size);
    TreeApart(m, s.b, i);
    HeadAndNext(m, s.b, i, x, s.cs[x].size);
    ChunkMapped(m, s, x, x);
    assert ChunkOk(h, s.b.bn[h]) && ChunkOk(W(m, h + FD), s.b.bn[W(m, h + FD)]);
  }

  // The effect on chunks alone

  lemma UnbinnedSmallIs(m: Mem, s: State, p: int)
    requires HeapOk(m, s) && p in s.cs && s.cs[p].kind.Binned? && IsSmall(s.cs[p].size)
    ensures UnbinnedSmall(s, p) == s.(b := UnbinnedSmall(s, p).b, cs := Rekind(s.cs, p, Loose))
  {
    hide W, HeapOk;
    SmallOut(m, s, p);
  }

  lemma UnbinnedLargeIs(m: Mem, s: State, p: int)
    requires HeapOk(m, s) && p in s.cs && s.cs[p].kind.Binned? && !IsSmall(s.cs[p].size)
    ensures UnbinnedLarge(s, p) == s.(b := UnbinnedLarge(s, p).b, cs := Rekind(s.cs, p, Loose))
  {
    hide W, HeapOk, TreeIndex, RemovedLarge;
    LargeOut(m, s, p);
  }

  lemma BinnedLargeIs(m: Mem, s: State, p: int)
    requires HeapOk(m, s) && p in s.cs && s.cs[p].kind.Loose? && !IsSmall(s.cs[p].size)
    ensures BinnedLarge(s, p) == s.(b := BinnedLarge(s, p).b, cs := Rekind(s.cs, p, Binned))
  {
    hide W, HeapOk, TreeIndex, InsertedLarge;
    LargePlace(m, s, p);
  }
}
