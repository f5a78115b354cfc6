/** The heap that closures are allocated from, as a class whose fields are those of malloc_state. */
module Heap {
  import opened BinIndex
  import opened BitMaps
  import opened Bins
  import opened BestFit
  import opened HeapBins
  import opened HeapClient
  import opened HeapFit
  import opened HeapFree
  import opened HeapGrow
  import opened HeapKept
  import opened HeapMoves
  import opened HeapState
  import opened HeapSteps
  import opened HeapTags
  import opened HeapSpace
  import opened HeapTrim
  import opened HeapUnlink
  import opened Rings
  import opened SegAdd
  import opened SegDrop
  import opened SegPrepend
  import opened SegTop
  import opened Tiles
  import opened Tries
  import opened TrieMem
  import opened TreeOps
  import opened TreeRemove
  import opened TreeSearch
  import opened Words

  class Heap {
    var mem: Mem
    var smallmap: Bits
    var treemap: Bits
    var dvsize: int
    var topsize: int
    var dv: int
    var top: int
    var leastAddr: int
    var footprint: int
    var maxFootprint: int
    var trimCheck: int

    /** What the words and fields stand for. */
    ghost var s: State

    /** How far each byte's executable view is, as the system has mapped it. */
    ghost var alias: map<int, int>

    ghost predicate Core()
      reads this
    {
      && smallmap == s.b.smallmap && treemap == s.b.treemap
      && dv == s.dv && dvsize == s.dvsize && top == s.top && topsize == s.topsize
      && HeapOk(mem, s) && AtLeast(leastAddr, s.g) && AliasOk(alias, s.g)
    }

    /** Core, and the footprint is the sum of the segment sizes. */
    ghost predicate Ok()
      reads this
    {
      Core() && footprint == Footprint(s.g, s.order) && footprint <= maxFootprint
    }

    /** No chunk is between places, and Ok. */
    ghost predicate Valid()
      reads this
    {
      Ok() && Pending(s.cs) == {}
    }

    /** The heap at program start: zeroed static state and no memory from the system. */
    constructor ()
      ensures Valid() && Users(s.cs) == map[] && s.order == [] && footprint == 0
    {
      hide HeapOk, AtLeast, AliasOk, Footprint, StaticMemory, Pending, Users;
      mem := StaticMemory();
      smallmap, treemap := ZERO_MAP, ZERO_MAP;
      dvsize, topsize, dv, top, leastAddr := 0, 0, 0, 0, 0;
      footprint, maxFootprint, trimCheck := 0, 0, 0;
      s := EmptyState();
      alias := map[];
      new;
      EmptyHeap();
    }

    /** A client stores to an aligned word of a block it holds. */
    method Store(p: int, a: int, v: int)
      requires Valid() && p in Users(s.cs) && p + 16 <= a < p + Users(s.cs)[p] + 8 && a % 8 == 0
      modifies this`mem
      ensures Valid() && mem == Put(old(mem), a, v)
      ensures forall q, b {:trigger q in Users(s.cs), W(mem, b)} ::
        q in Users(s.cs) && q != p && q + 16 <= b < q + Users(s.cs)[q] + 8 ==> W(mem, b) == W(old(mem), b)
    {
      hide W, HeapOk, AtLeast, AliasOk, Footprint, Pending, Users;
      StoreHarmless(mem, s, p, a, v);
      mem := Put(mem, a, v);
    }

    // Bins

    /** insert_small_chunk. */
    method InsertSmallChunk(p: int, sz: int)
      requires Ok() && p in s.cs && s.cs[p].kind.Loose? && s.cs[p].size == sz && IsSmall(sz)
      modifies this`mem, this`smallmap, this`s
      ensures Ok() && mem.Keys == old(mem.Keys) && FreeWordsOnly(old(mem), mem, old(s.cs))
      ensures s == old(s).(b := InsertedSmall(old(s.b), SmallIndex(sz), p), cs := Rekind(old(s.cs), p, Binned))
    {
      hide W, HeapOk, AtLeast, AliasOk, Footprint, FreeWordsOnly, Rekind, InsertedSmall, Mark, Put, Get;
      var i := SmallIndex(sz);
      SmallPlace(mem, s, p);
      var b := SB(i);
      var f := b;
      ghost var m0 := mem;
      if !smallmap[i] {
        smallmap := Mark(smallmap, i);
      } else {
        f := Get(mem, b + FD);
      }
      var m := mem;
      m := Put(m, b + FD, p);
      m := Put(m, f + BK, p);
      m := Put(m, p + FD, f);
      m := Put(m, p + BK, b);
      InsertSmallDone(m0, m, s, p, f);
      mem := m;
      s := s.(b := InsertedSmall(s.b, i, p), cs := Rekind(s.cs, p, Binned));
    }

    /** unlink_small_chunk. */
    method UnlinkSmallChunk(p: int, sz: int)
      requires Ok() && p in s.cs && s.cs[p].kind.Binned? && s.cs[p].size == sz && IsSmall(sz)
      modifies this`mem, this`smallmap, this`s
      ensures Ok() && mem.Keys == old(mem.Keys) && FreeWordsOnly(old(mem), mem, old(s.cs))
      ensures s == UnbinnedSmall(old(s), p)
    {
      hide W, HeapOk, AtLeast, AliasOk, Footprint, FreeWordsOnly, RemovedSmall, Rekind, Clear, Put, Get;
      var i := SmallIndex(sz);
      SmallOut(mem, s, p);
      var f := Get(mem, p + FD);
      var k := Get(mem, p + BK);
      ghost var m0 := mem;
      if f == k {
        smallmap := Clear(smallmap, i);
      } else {
        mem := Put(mem, f + BK, k);
        mem := Put(mem, k + FD, f);
      }
      UnlinkSmallDone(m0, mem, s, p);
      s := UnbinnedSmall(s, p);
    }

    /** unlink_first_small_chunk, together with the load of the bin's first chunk. */
    method UnlinkFirstSmallChunk(i: int) returns (p: int)
      requires Ok() && 0 <= i < 32 && smallmap[i]
      modifies this`mem, this`smallmap, this`s
      ensures old(p in s.cs && s.cs[p] == Chunk(8 * i, s.cs[p].pin, Binned, s.cs[p].home))
      ensures Ok() && mem.Keys == old(mem.Keys) && FreeWordsOnly(old(mem), mem, old(s.cs))
      ensures s == UnbinnedSmall(old(s), p)
    {
      hide W, HeapOk, AtLeast, AliasOk, Footprint, FreeWordsOnly, RemovedSmall, Rekind, Clear, Put, Get;
      FirstSmall(mem, s, i);
      var b := SB(i);
      p := Get(mem, b + FD);
      SmallOut(mem, s, p);
      var f := Get(mem, p + FD);
      ghost var m0 := mem;
      if b == f {
        smallmap := Clear(smallmap, i);
      } else {
        mem := Put(mem, b + FD, f);
        mem := Put(mem, f + BK, b);
      }
      FirstPuts(m0, mem, b, f);
      UnlinkSmallDone(m0, mem, s, p);
      s := UnbinnedSmall(s, p);
    }

    /** insert_large_chunk. */
    method InsertLargeChunk(x: int, sz: int)
      requires Ok() && x in s.cs && s.cs[x].kind.Loose? && s.cs[x].size == sz && !IsSmall(sz)
      modifies this`mem, this`treemap, this`s
      ensures Ok() && mem.Keys == old(mem.Keys) && FreeWordsOnly(old(mem), mem, old(s.cs))
      ensures s == BinnedLarge(old(s), x)
    {
      hide W, HeapOk, AtLeast, AliasOk, Footprint, FreeWordsOnly, InsertedLarge, Rekind, Mark, Put, Get, TreeBinAt,
        BinBase, BinWidth, Walkable, Readable, LargeOnly, Elems, SameSizeNode, InsertSlot, InsertParent, LargePrep,
        TreeIndex, BnOk, LargeInsertion, LeafStores, ChainStores;
      ghost var m0, h, t := mem, s, s.b.trees;
      var i := TreeIndex(sz);
      LargePlace(m0, h, x);
      var m := Put(Put(Put(mem, x + INDEX, i), x + CHILD0, 0), x + CHILD1, 0);
      ghost var m1 := m;
      LargeReady(m0, m, h, x);
      assert LargeInsertion(m0, m1, h, x) by { StartInsertion(m0, m1, h, x); }
      var tt, c, same := TB(i), TB(i), false;
      if treemap[i] {
        tt, c, same := FindInsertPoint(m, Get(m, TB(i)), i, sz, t[i], h.b.bn);
      } else {
        EmptySlot(t[i], sz, i);
      }
      if !same {
        SlotMapped(m, h, i, sz);
        m := LeafStores(m, x, c, tt);
        InsertLeafDone(m0, m1, m, h, x, c, tt);
      } else {
        ChainMapped(m, h, i, x, sz);
        var f := Get(m, tt + FD);
        m := ChainStores(m, x, tt, f);
        InsertChainDone(m0, m1, m, h, x, tt, f);
      }
      MarkAgain(treemap, i);
      if !treemap[i] {
        treemap := Mark(treemap, i);
      }
      mem := m;
      s := BinnedLarge(h, x);
    }

    /** unlink_large_chunk. */
    method UnlinkLargeChunk(x: int)
      requires Ok() && x in s.cs && s.cs[x].kind.Binned? && !IsSmall(s.cs[x].size)
      modifies this`mem, this`treemap, this`s
      ensures Ok() && mem.Keys == old(mem.Keys) && FreeWordsOnly(old(mem), mem, old(s.cs))
      ensures s == UnbinnedLarge(old(s), x)
    {
      hide W, HeapOk, AtLeast, AliasOk, Footprint, FreeWordsOnly, RemovedLarge, Rekind, Clear, Put, Get, TreeIndex,
        Elems, SubAt, SlotOf, ParOf, RemoveHere, Remove, OutWrites, ZeroedAt, TailWrites, DownChild, DownOffset,
        LastLeaf, LeafSlot, HeadOf, NextOf, PrevOf, BridgeStores, TreeRep;
      ghost var h := s;
      var m := mem;
      LargeOut(m, h, x);
      LargeWords(m, h, x);
      XMapped(m, h, x);
      var xp := Get(m, x + PARENT);
      var r, root := 0, false;
      if Get(m, x + BK) != x {
        var f := Get(m, x + FD);
        r := Get(m, x + BK);
        NeighboursMapped(m, h, x);
        BridgeApart(m, h, x);
        m := BridgeStores(m, f, r);
        BridgeDone(mem, m, f, r);
      } else {
        var rp;
        r, rp := LastLeafOf(m, h, x);
        if r != 0 {
          m := Put(m, rp, 0);
          CutDone(mem, m, rp);
        }
      }
      if xp != 0 {
        ghost var m1 := m;
        m, root := TakePlace(mem, m, x, r, xp, h);
        HeadCases(mem, m1, m, h, x, r);
        if root && r == 0 {
          treemap := Clear(treemap, Get(mem, x + INDEX));
        }
      } else {
        ChainedDone(mem, m, h, x);
        TreeEmptied(mem, h, x);
      }
      mem := m;
      s := UnbinnedLarge(h, x);
    }

    /** insert_chunk. */
    method InsertChunk(p: int, size: int)
      requires Ok() && p in s.cs && s.cs[p].kind.Loose? && s.cs[p].size == size
      modifies this`mem, this`smallmap, this`treemap, this`s
      ensures Ok() && mem.Keys == old(mem.Keys) && Unnoticed(old(mem), old(s), mem, s)
      ensures FreeWordsOnly(old(mem), mem, old(s.cs))
      ensures s == old(s).(b := s.b, cs := Rekind(old(s.cs), p, Binned)) && Pending(s.cs) == old(Pending(s.cs)) - {p}
    {
      hide W, HeapOk, AtLeast, AliasOk, Footprint, FreeWordsOnly, Rekind, InsertedSmall, BinnedLarge, Unnoticed,
        Pending;
      if IsSmall(size) {
        InsertSmallChunk(p, size);
      } else {
        InsertLargeChunk(p, size);
        BinnedLargeIs(old(mem), old(s), p);
      }
      BinsUnnoticed(old(mem), mem, old(s), s, p, Binned);
    }

    /** unlink_chunk. */
    method UnlinkChunk(p: int, size: int)
      requires Ok() && p in s.cs && s.cs[p].kind.Binned? && s.cs[p].size == size
      modifies this`mem, this`smallmap, this`treemap, this`s
      ensures Ok() && mem.Keys == old(mem.Keys) && Unnoticed(old(mem), old(s), mem, s)
      ensures FreeWordsOnly(old(mem), mem, old(s.cs))
      ensures s == old(s).(b := s.b, cs := Rekind(old(s.cs), p, Loose)) && Pending(s.cs) == old(Pending(s.cs)) + {p}
    {
      hide W, HeapOk, AtLeast, AliasOk, Footprint, FreeWordsOnly, Rekind, UnbinnedSmall, UnbinnedLarge, Unnoticed,
        Pending;
      if IsSmall(size) {
        UnlinkSmallChunk(p, size);
        UnbinnedSmallIs(old(mem), old(s), p);
      } else {
        UnlinkLargeChunk(p);
        UnbinnedLargeIs(old(mem), old(s), p);
      }
      BinsUnnoticed(old(mem), mem, old(s), s, p, Loose);
    }

    // Serving a request from the chunks there are

    /** replace_dv: the old victim, if any, goes to its small bin. */
    method ReplaceDv(p: int, size: int)
      requires Ok() && p in s.cs && s.cs[p].kind.Loose? && s.cs[p].size == size && (dvsize == 0 || IsSmall(dvsize))
      modifies this`mem, this`smallmap, this`s, this`dv, this`dvsize
      ensures Ok() && mem.Keys == old(mem.Keys) && Unnoticed(old(mem), old(s), mem, s)
      ensures s.g == old(s.g) && s.order == old(s.order) && Pending(s.cs) == old(Pending(s.cs)) - {p}
      ensures dv == p && dvsize == size
    {
      hide W, HeapOk, AtLeast, AliasOk, Footprint, FreeWordsOnly, Rekind, InsertedSmall, Unnoticed, Pending, Carve;
      var dvs := dvsize;
      if dvs != 0 {
        var d := dv;
        VictimThere(mem, s);
        ghost var t := CarveState(s, d, d + dvs, d + dvs, Loose, User);
        VictimMoves(mem, s, d, Loose);
        // Between its place as victim and its bin, the old victim belongs to neither.
        UnnoticedHeap(mem, s, mem, t);
        dv, dvsize, s := 0, 0, t;
        ghost var m1 := mem;
        InsertSmallChunk(d, dvs);
        BinsUnnoticed(m1, mem, t, s, d, Binned);
        UnnoticedTrans(old(mem), old(s), m1, t, mem, s);
        RekindElse(t.cs, d, Binned, p);
      }
      VictimMoves(mem, s, p, Dv);
      UnnoticedHeap(mem, s, mem, CarveState(s, p, p + size, p + size, Dv, User));
      if dvs != 0 {
        UnnoticedTrans(old(mem), old(s), mem, s, mem, CarveState(s, p, p + size, p + size, Dv, User));
      }
      dvsize := size;
      dv := p;
      s := CarveState(s, p, p + size, p + size, Dv, User);
    }

    /** The exact-fit case of dlmalloc: the first chunk of small bin i as it is. */
    method SmallWhole(i: int, nb: int) returns (r: int)
      requires Ok() && 0 <= i < 32 && smallmap[i] && nb % 8 == 0 && nb >= MIN_CHUNK_SIZE
      requires nb <= 8 * i < nb + MIN_CHUNK_SIZE
      requires forall j :: nb / 8 <= j < i ==> !smallmap[j]
      modifies this`mem, this`smallmap, this`s
      ensures Ok() && GaveBlock(old(mem), old(s), mem, s, r - 16, nb) && LeastFit(old(s).cs, nb, r - 16)
      ensures r - 16 in old(s).cs && old(s).cs[r - 16].size == 8 * i
    {
      hide W, HeapOk, AtLeast, AliasOk, Footprint, FreeWordsOnly, UnbinnedSmall, GaveBlock, Loosened, SetInuseAndPinuse,
        Carve, LeastFit;
      var p := UnlinkFirstSmallChunk(i);
      SmallLeast(old(mem), old(s), nb, i, p);
      UnbinnedSmallIs(old(mem), old(s), p);
      BinLoosened(old(mem), mem, old(s), s, p);
      LooseMapped(mem, s, p);
      ghost var m1 := mem;
      mem := SetInuseAndPinuse(mem, p, 8 * i);
      LooseGiven(old(mem), old(s), m1, s, mem, p, nb);
      BlockHeap(old(mem), old(s), mem, CarveState(s, p, p + 8 * i, p + 8 * i, User, User), p, nb);
      s := CarveState(s, p, p + 8 * i, p + 8 * i, User, User);
      r := p + 16;
    }

    /** set_size_and_pinuse_of_inuse_chunk on the front of a loose chunk, set_size_and_pinuse_of_free_chunk on the
        rest. */
    method SplitChunk(p: int, nb: int, size: int)
      requires Ok() && p in s.cs && s.cs[p].kind.Loose? && s.cs[p].size == size
      requires nb % 8 == 0 && nb >= MIN_CHUNK_SIZE && size - nb >= MIN_CHUNK_SIZE
      modifies this`mem, this`s
      ensures Ok() && SplitWritten(old(mem), mem, p, nb, size)
      ensures s == CarveState(old(s), p, p + nb, p + size, User, Loose)
    {
      hide W, HeapOk, AtLeast, AliasOk, Footprint, ShapeOk, SetInuseSize, SetFreeSize, SplitWritten, Carve, Gave,
        Pending;
      LooseMapped(mem, s, p);
      ShapeOf(mem, s);
      NotDv(s, p);
      ghost var m0 := mem;
      var m := SetInuseSize(mem, p, nb);
      m := SetFreeSize(m, p + nb, size - nb);
      SplitPuts(m0, m, p, nb, size);
      FrontGiven(m0, m, s, p, nb, Loose);
      GaveHeap(m0, s, m, CarveState(s, p, p + nb, p + size, User, Loose), p, nb);
      mem := m;
      s := CarveState(s, p, p + nb, p + size, User, Loose);
    }

    /** The case of dlmalloc that takes from the next occupied small bin i and keeps what is left as the victim. */
    method SmallSplit(i: int, nb: int) returns (r: int)
      requires Ok() && 0 <= i < 32 && smallmap[i] && nb % 8 == 0 && nb >= MIN_CHUNK_SIZE && nb <= 8 * i
      requires dvsize < nb < MIN_LARGE_SIZE
      requires forall j :: nb / 8 <= j < i ==> !smallmap[j]
      modifies this`mem, this`smallmap, this`s, this`dv, this`dvsize
      ensures Ok() && GaveBlock(old(mem), old(s), mem, s, r - 16, nb) && LeastFit(old(s).cs, nb, r - 16)
    {
      hide W, HeapOk, AtLeast, AliasOk, Footprint, FreeWordsOnly, UnbinnedSmall, GaveBlock, SetInuseAndPinuse, Carve,
        LeastFit, Unnoticed, Pending;
      if 8 * i - nb < MIN_CHUNK_SIZE {
        r := SmallWhole(i, nb);
        return;
      }
      ghost var m0, s0 := mem, s;
      var p := UnlinkFirstSmallChunk(i);
      var rsize := 8 * i - nb;
      SmallLeast(m0, s0, nb, i, p);
      UnbinnedSmallIs(m0, s0, p);
      BinLoosened(m0, mem, s0, s, p);
      ghost var m1, s1 := mem, s;
      SplitChunk(p, nb, 8 * i);
      LooseFrontGiven(m0, s0, m1, s1, mem, p, nb);
      ghost var m2, s2 := mem, s;
      ReplaceDv(p + nb, rsize);
      FrontDone(m0, s0, m2, s2, mem, s, p, nb, 8 * i);
      r := p + 16;
    }

    /** tmalloc_small: from a smallest large chunk, what is left becoming the victim. */
    method TmallocSmall(nb: int) returns (r: int)
      requires Ok() && NonZero(treemap) && nb % 8 == 0 && MIN_CHUNK_SIZE <= nb < MIN_LARGE_SIZE && dvsize < nb
      requires forall q :: Fits(s.cs, nb, q) ==> s.cs[q].size >= MIN_LARGE_SIZE
      modifies this`mem, this`smallmap, this`treemap, this`s, this`dv, this`dvsize
      ensures Ok() && GaveBlock(old(mem), old(s), mem, s, r - 16, nb) && LeastFit(old(s).cs, nb, r - 16)
    {
      hide W, HeapOk, AtLeast, AliasOk, Footprint, FreeWordsOnly, UnbinnedLarge, GaveBlock, SetInuseAndPinuse, Carve,
        LeastFit, Unnoticed, Pending, TreesReady, IsLeastLarge, Fits;
      ghost var m0, s0 := mem, s;
      TreesAreReady(mem, s);
      var v, rsize := LeastLarge(mem, treemap, nb, s.b);
      LargeIsLeast(mem, s, nb, v, rsize);
      FitIs(s, nb, v);
      AddressOk(mem, s, leastAddr, v);
      assert v >= leastAddr && v < v + nb;
      UnlinkLargeChunk(v);
      UnbinnedLargeIs(m0, s0, v);
      BinLoosened(m0, mem, s0, s, v);
      ghost var m1, s1 := mem, s;
      if rsize < MIN_CHUNK_SIZE {
        LooseMapped(mem, s, v);
        mem := SetInuseAndPinuse(mem, v, rsize + nb);
        LooseGiven(m0, s0, m1, s1, mem, v, nb);
        s := CarveState(s, v, v + (rsize + nb), v + (rsize + nb), User, User);
        BlockHeap(m0, s0, mem, s, v, nb);
      } else {
        SplitChunk(v, nb, rsize + nb);
        LooseFrontGiven(m0, s0, m1, s1, mem, v, nb);
        ghost var m2, s2 := mem, s;
        ReplaceDv(v + nb, rsize);
        FrontDone(m0, s0, m2, s2, mem, s, v, nb, rsize + nb);
      }
      r := v + 16;
    }

    /** tmalloc_large: from a best fitting chunk, unless the victim fits at least as tightly. */
    method TmallocLarge(nb: int) returns (r: int)
      requires Ok() && nb % 8 == 0 && MIN_LARGE_SIZE <= nb < TWO64
      modifies this`mem, this`smallmap, this`treemap, this`s
      ensures r != 0 ==> Ok() && GaveBlock(old(mem), old(s), mem, s, r - 16, nb) && FromBin(old(s), nb, r - 16)
      ensures r == 0 ==> unchanged(this) && NoBin(s, nb)
    {
      hide W, HeapOk, AtLeast, AliasOk, Footprint, FreeWordsOnly, UnbinnedLarge, GaveBlock, SetInuseAndPinuse, Carve,
        LeastFit, Unnoticed, Pending, TreesReady, IsBestFit, Fits, FromBin, NoBin, U64;
      ghost var m0, s0 := mem, s;
      TreesAreReady(mem, s);
      var v, rsize := BestFitLarge(mem, treemap, nb, s.b);
      BestIsLeast(mem, s, nb, v, rsize);
      VictimLoses(mem, s, nb, v, rsize);
      if v != 0 && rsize < U64(dvsize - nb) {
        FitIs(s, nb, v);
        AddressOk(mem, s, leastAddr, v);
        assert v >= leastAddr && v < v + nb;
        UnlinkLargeChunk(v);
        UnbinnedLargeIs(m0, s0, v);
        BinLoosened(m0, mem, s0, s, v);
        ghost var m1, s1 := mem, s;
        if rsize < MIN_CHUNK_SIZE {
          LooseMapped(mem, s, v);
          mem := SetInuseAndPinuse(mem, v, rsize + nb);
          LooseGiven(m0, s0, m1, s1, mem, v, nb);
          s := CarveState(s, v, v + (rsize + nb), v + (rsize + nb), User, User);
          BlockHeap(m0, s0, mem, s, v, nb);
        } else {
          SplitChunk(v, nb, rsize + nb);
          LooseFrontGiven(m0, s0, m1, s1, mem, v, nb);
          ghost var m2, s2 := mem, s;
          InsertChunk(v + nb, rsize);
          FrontDone(m0, s0, m2, s2, mem, s, v, nb, rsize + nb);
        }
        return v + 16;
      }
      r := 0;
    }

    /** The case of dlmalloc that splits the victim. */
    method SplitVictim(nb: int) returns (r: int)
      requires Ok() && nb % 8 == 0 && MIN_CHUNK_SIZE <= nb && nb + MIN_CHUNK_SIZE <= dvsize
      modifies this`mem, this`s, this`dv, this`dvsize
      ensures Ok() && GaveBlock(old(mem), old(s), mem, s, r - 16, nb) && r - 16 == old(dv) && r != 0
    {
      hide W, HeapOk, AtLeast, AliasOk, Footprint, GaveBlock, SetInuseSize, SetFreeSize, SplitWritten, Carve, Gave,
        Pending;
      ghost var m0, s0 := mem, s;
      VictimThere(mem, s);
      LooseMapped(mem, s, dv);
      var rsize := dvsize - nb;
      var p := dv;
      var q := p + nb;
      dv := q;
      dvsize := rsize;
      var m := SetFreeSize(mem, q, rsize);
      m := SetInuseSize(m, p, nb);
      SplitPuts(m0, m, p, nb, s.dvsize);
      FrontGiven(m0, m, s, p, nb, Dv);
      mem := m;
      s := CarveState(s, p, q, p + s.dvsize, User, Dv);
      PendingAlone(s0, p);
      BlockGiven(m0, s0, mem, s, p, nb, nb);
      BlockHeap(m0, s0, mem, s, p, nb);
      r := p + 16;
    }

    /** The case of dlmalloc that exhausts the victim. */
    method ExhaustVictim(nb: int) returns (r: int)
      requires Ok() && nb % 8 == 0 && MIN_CHUNK_SIZE <= nb <= dvsize < nb + MIN_CHUNK_SIZE
      modifies this`mem, this`s, this`dv, this`dvsize
      ensures Ok() && GaveBlock(old(mem), old(s), mem, s, r - 16, nb) && r - 16 == old(dv) && r != 0
    {
      hide W, HeapOk, AtLeast, AliasOk, Footprint, GaveBlock, SetInuseAndPinuse, Carve, Gave, Pending;
      ghost var m0, s0 := mem, s;
      VictimThere(mem, s);
      LooseMapped(mem, s, dv);
      var p := dv;
      var dvs := dvsize;
      dvsize := 0;
      dv := 0;
      mem := SetInuseAndPinuse(mem, p, dvs);
      WholeGiven(m0, mem, s, p);
      s := CarveState(s, p, p + dvs, p + dvs, User, User);
      PendingAlone(s0, p);
      BlockGiven(m0, s0, mem, s, p, dvs, nb);
      BlockHeap(m0, s0, mem, s, p, nb);
      r := p + 16;
    }

    /** The case of dlmalloc and sys_alloc that splits top. */
    method FromTop(nb: int) returns (r: int)
      requires Ok() && nb % 8 == 0 && MIN_CHUNK_SIZE <= nb < topsize
      modifies this`mem, this`s, this`top, this`topsize
      ensures Ok() && GaveBlock(old(mem), old(s), mem, s, r - 16, nb) && r - 16 == old(top) && r != 0
    {
      hide W, HeapOk, AtLeast, AliasOk, Footprint, GaveBlock, SetInuseSize, Carve, Gave, Pending;
      ghost var m0, s0 := mem, s;
      TopMapped(mem, s, nb);
      var rsize := topsize - nb;
      topsize := rsize;
      var p := top;
      var q := p + nb;
      top := q;
      mem := Put(mem, q + HEAD, rsize + PINUSE_BIT);
      mem := SetInuseSize(mem, p, nb);
      TopGiven(m0, mem, s, nb);
      s := CarveState(s, p, q, p + s.topsize, User, Top);
      BlockGiven(m0, s0, mem, s, p, nb, nb);
      BlockHeap(m0, s0, mem, s, p, nb);
      r := p + 16;
    }

    // The system

    /** CALL_MMAP: pages that were not mapped, with any contents, or a failure.  dlmmap leaves the distance of the
        executable view in the last word. */
    method Mmap(size: int) returns (base: int)
      requires Core() && size % PAGE == 0 && size > 0
      modifies this`mem, this`alias
      ensures Core() && Unnoticed(old(mem), s, mem, s)
      ensures base == CMFAIL ==> mem == old(mem) && alias == old(alias)
      ensures base != CMFAIL ==> Gained(mem, s.g, base, size) && AliasIs(alias, base, size, W(mem, base + size - 8))
    {
      hide W, HeapOk, AtLeast, AliasOk, Unnoticed, WithRegion, Extends;
      ghost var m0 := mem;
      assert Extends(mem, mem) by { SameExtends(mem); }
      HeapExtends(mem, mem, s);
      var b: int := *;
      var contents: Mem := *;
      if b % PAGE == 0 && GM_END <= b && b + size < TWO64 && forall a :: b <= a < b + size ==> a !in mem {
        RegionExtends(mem, b, size, contents);
        mem := WithRegion(mem, b, size, contents);
        HeapExtends(m0, mem, s);
        UnnoticedHeap(m0, s, mem, s);
        GainedApart(m0, mem, s, b, size);
        alias := AliasNoted(mem, s, alias, b, size);
        return b;
      }
      base := CMFAIL;
    }

    /** The loop of sys_alloc that looks for the segment a region extends at its end. */
    method SegmentEndingAt(addr: int) returns (sp: int, ghost k: int)
      requires Core() && s.order != []
      ensures 0 <= k <= |s.order| && (k == |s.order| ==> sp == 0)
      ensures k < |s.order| ==>
        s.order[k] in s.g && sp == s.g[s.order[k]].rec && sp != 0 && s.g[s.order[k]].base + s.g[s.order[k]].size == addr
    {
      hide W, HeapOk, AtLeast, AliasOk;
      sp, k := GM_SEG, 0;
      RecordReadable(mem, s, 0);
      while sp != 0 && addr != Get(mem, sp + SEG_BASE) + Get(mem, sp + SEG_SIZE)
        invariant 0 <= k <= |s.order|
        invariant k < |s.order| ==>
          s.order[k] in s.g && sp == s.g[s.order[k]].rec && sp != 0 &&
          RecordWords(mem, s.g[s.order[k]], W(mem, sp + SEG_NEXT))
        invariant k < |s.order| ==> forall a :: sp <= a < sp + 32 ==> a in mem
        invariant k == |s.order| ==> sp == 0
        decreases |s.order| - k
      {
        RecordReadable(mem, s, k);
        sp := Get(mem, sp + SEG_NEXT);
        k := k + 1;
        if k < |s.order| {
          RecordReadable(mem, s, k);
        }
      }
    }

    /** The loop of sys_alloc that looks for the segment a region precedes. */
    method SegmentStartingAt(addr: int) returns (sp: int, ghost k: int)
      requires Core() && s.order != []
      ensures 0 <= k <= |s.order| && (k == |s.order| ==> sp == 0)
      ensures k < |s.order| ==>
        s.order[k] in s.g && sp == s.g[s.order[k]].rec && sp != 0 && s.g[s.order[k]].base == addr
    {
      hide W, HeapOk, AtLeast, AliasOk;
      sp, k := GM_SEG, 0;
      RecordReadable(mem, s, 0);
      while sp != 0 && Get(mem, sp + SEG_BASE) != addr
        invariant 0 <= k <= |s.order|
        invariant k < |s.order| ==>
          s.order[k] in s.g && sp == s.g[s.order[k]].rec && sp != 0 &&
          RecordWords(mem, s.g[s.order[k]], W(mem, sp + SEG_NEXT))
        invariant k < |s.order| ==> forall a :: sp <= a < sp + 32 ==> a in mem
        invariant k == |s.order| ==> sp == 0
        decreases |s.order| - k
      {
        RecordReadable(mem, s, k);
        sp := Get(mem, sp + SEG_NEXT);
        k := k + 1;
        if k < |s.order| {
          RecordReadable(mem, s, k);
        }
      }
    }

    /** Appending to the segment of top: its size grows, and top with it. */
    method Append(base: int, size: int)
      requires Core() && Gained(mem, s.g, base, size) && s.order != [] && s.order[0] in s.g
      requires s.g[s.order[0]].base + s.g[s.order[0]].size == base
      requires AliasIs(alias, base, size, s.g[s.order[0]].exec)
      modifies this`mem, this`s, this`topsize, this`trimCheck
      ensures Core() && Unnoticed(old(mem), old(s), mem, s) && Pending(s.cs) == old(Pending(s.cs))
      ensures Footprint(s.g, s.order) == old(Footprint(s.g, s.order)) + size && topsize == old(topsize) + size
    {
      hide W, HeapOk, Footprint, Unnoticed, Pending, ResizeWrites, CanResize, InitTopWords, MappedOk, Gained, AtLeast,
        AliasOk, AliasIs, Resized;
      ghost var m0 := mem;
      RecordReadable(mem, s, 0);
      AppendMapped(mem, s, base, size);
      var m := Put(mem, GM_SEG + SEG_SIZE, Get(mem, GM_SEG + SEG_SIZE) + size);
      topsize := topsize + size;
      m := InitTopWords(m, top, topsize);
      trimCheck := TRIM_THRESHOLD;
      mem := m;
      AppendWritten(m0, m, s, base, size);
      ResizeHasTop(s, size);
      ResizeDone(m0, m, s, size);
      FootprintResizedHere(m0, s, size);
      UnnoticedHeap(m0, s, m, Resized(s, size));
      AppendGrounds(m0, s, alias, leastAddr, base, size);
      s := Resized(s, size);
    }

    /** init_bins: every small bin is empty, its header pointing to itself. */
    static method InitBins(m: Mem) returns (r: Mem)
      requires forall a :: SMALLBINS <= a < TREEBINS ==> a in m
      ensures r.Keys == m.Keys
      ensures forall a {:trigger W(r, a)} :: !(SMALLBINS <= a < TREEBINS) ==> W(r, a) == W(m, a)
      ensures forall i :: 0 <= i < 32 ==> W(r, SB(i) + FD) == SB(i) && W(r, SB(i) + BK) == SB(i)
    {
      hide W;
      r := m;
      for i := 0 to 32
        invariant r.Keys == m.Keys
        invariant forall a {:trigger W(r, a)} :: !(SMALLBINS <= a < TREEBINS) ==> W(r, a) == W(m, a)
        invariant forall j :: 0 <= j < i ==> W(r, SB(j) + FD) == SB(j) && W(r, SB(j) + BK) == SB(j)
      {
        r := Put(r, SB(i) + BK, SB(i));
        r := Put(r, SB(i) + FD, SB(i));
      }
    }

    /** The first-time initialization in sys_alloc. */
    method Initialize(base: int, size: int)
      requires Core() && Gained(mem, s.g, base, size) && s.order == []
      requires AliasIs(alias, base, size, W(mem, base + size - 8))
      modifies this`mem, this`s, this`top, this`topsize, this`trimCheck, this`leastAddr
      ensures Core() && Unnoticed(old(mem), old(s), mem, s) && Pending(s.cs) == old(Pending(s.cs))
      ensures Footprint(s.g, s.order) == size && topsize == size - TOP_FOOT_SIZE && s.order != []
    {
      hide W, Put, Get, HeapOk, AtLeast, AliasOk, Footprint, AliasIs, Unnoticed, Pending, StartWrites, MappedOk,
        FreshPlace, InitTopWords, FirstRecord, Gained;
      ghost var m0 := mem;
      StartMapped(mem, s, base, size);
      leastAddr := base;
      var exec := Get(mem, base + size - 8);
      var m := FirstRecord(mem, base, size, exec);
      ghost var m1 := m;
      m := InitBins(m);
      ghost var m2 := m;
      top := base;
      topsize := size - TOP_FOOT_SIZE;
      m := InitTopWords(m, top, topsize);
      trimCheck := TRIM_THRESHOLD;
      mem := m;
      StartWritten(m0, m1, m2, m, s, base, size, exec);
      StartDone(m0, m, s, 0, base, size, exec);
      UnnoticedHeap(m0, s, m, Started(s, 0, base, size, exec));
      GroundsStarted(alias, s, base, size, exec);
      s := Started(s, 0, base, size, exec);
    }

    /** The case of prepend_alloc where top follows: the rest joins it. */
    method PrependToTop(p: int, nb: int)
      requires Ok() && NewFront(mem, s, p, top, nb)
      modifies this`mem, this`s, this`top, this`topsize
      ensures Ok() && Gave(old(mem), old(s), mem, s, p, nb) && Pending(s.cs) == {} && s.g == old(s.g)
      ensures s.order == old(s.order)
    {
      hide W, HeapOk, AtLeast, AliasOk, Footprint, Gave, Carve, Pending, MkHead, CInuse, ChunkSize, PInuse, Span,
        NextTop, NextInUse;
      ghost var m0, s0 := mem, s;
      var q := p + nb;
      var qsize := top - p - nb;
      FrontReady(mem, s, p, top, nb);
      FrontTop(mem, s, p, top, nb);
      var tsize := topsize + qsize;
      topsize := tsize;
      top := q;
      mem := Put(mem, q + HEAD, tsize + PINUSE_BIT);
      ghost var t := CarveState(s, p, q, q + tsize, User, Top);
      FrontJoinsTop(m0, mem, s, p, q, q + tsize);
      GaveHeap(m0, s0, mem, t, p, nb);
      s := t;
      FrontPendingNone(s0, s, p, q + tsize);
    }

    /** The case where the designated victim follows. */
    method PrependToVictim(p: int, nb: int)
      requires Ok() && NewFront(mem, s, p, dv, nb) && dv != top
      modifies this`mem, this`s, this`dv, this`dvsize
      ensures Ok() && Gave(old(mem), old(s), mem, s, p, nb) && Pending(s.cs) == {} && s.g == old(s.g)
      ensures s.order == old(s.order)
    {
      hide W, HeapOk, AtLeast, AliasOk, Footprint, Gave, Carve, Pending, SetFreeSize, MkHead, CInuse, ChunkSize, PInuse,
        Span, NextTop, NextInUse;
      ghost var m0, s0 := mem, s;
      var q := p + nb;
      var qsize := dv - p - nb;
      FrontReady(mem, s, p, dv, nb);
      FrontVictim(mem, s, p, dv, nb);
      var dsize := dvsize + qsize;
      dvsize := dsize;
      dv := q;
      mem := SetFreeSize(mem, q, dsize);
      ghost var t := CarveState(s, p, q, q + dsize, User, Dv);
      FrontJoins(m0, mem, s, p, q, q + dsize, Dv);
      GaveHeap(m0, s0, mem, t, p, nb);
      s := t;
      FrontPendingNone(s0, s, p, q + dsize);
    }

    /** The last case of prepend_alloc: what follows the new memory is in use or binned, and the rest goes to a bin. */
    method PrependToBin(p: int, next: int, nb: int)
      requires Ok() && NewFront(mem, s, p, next, nb) && next != top && next != dv
      modifies this`mem, this`smallmap, this`treemap, this`s
      ensures Ok() && Gave(old(mem), old(s), mem, s, p, nb) && Pending(s.cs) == {} && s.g == old(s.g)
      ensures s.order == old(s.order)
    {
      hide W, HeapOk, AtLeast, AliasOk, Footprint, FreeWordsOnly, Unnoticed, Gave, Carve, Pending, SetFreeWithPinuse,
        MkHead, CInuse, ChunkSize, Span, Rekind;
      ghost var m0, s0 := mem, s;
      var oldfirst := next;
      var q := p + nb;
      var qsize := oldfirst - q;
      FrontReady(mem, s, p, next, nb);
      if !CInuse(Get(mem, oldfirst + HEAD)) {
        var nsize := ChunkSize(Get(mem, oldfirst + HEAD));
        UnlinkChunk(oldfirst, nsize);
        FreshHeadKept(m0, mem, s0, p);
        oldfirst := oldfirst + nsize;
        qsize := qsize + nsize;
        FrontAfterUnlink(m0, s0, mem, s, p, next, nb);
      } else {
        UnnoticedSelf(mem, s);
        FrontInUse(mem, s, p, next, nb);
      }
      ghost var m1, s1 := mem, s;
      FrontMapped(mem, s, p, q, oldfirst);
      mem := SetFreeWithPinuse(mem, q, qsize, oldfirst);
      FrontJoins(m1, mem, s1, p, q, oldfirst, Loose);
      GaveLater(m0, s0, m1, s1, mem, CarveState(s1, p, q, oldfirst, User, Loose), p, nb);
      GaveHeap(m0, s0, mem, CarveState(s1, p, q, oldfirst, User, Loose), p, nb);
      s := CarveState(s1, p, q, oldfirst, User, Loose);
      FrontPendingDone(s1, s, p, q, next, oldfirst);
      ghost var m2, s2 := mem, s;
      InsertChunk(q, qsize);
      GaveBefore(m0, s0, m2, s2, mem, s, p, nb);
    }

    /** prepend_alloc, once the new memory has joined its segment and the head of the block has been written. */
    method PrependAlloc(p: int, oldfirst: int, nb: int) returns (r: int)
      requires Ok() && NewFront(mem, s, p, oldfirst, nb)
      modifies this`mem, this`smallmap, this`treemap, this`s, this`dv, this`dvsize, this`top, this`topsize
      ensures Ok() && Gave(old(mem), old(s), mem, s, p, nb) && Pending(s.cs) == {} && s.g == old(s.g)
      ensures s.order == old(s.order)
      ensures r == p + 16
    {
      hide W, HeapOk, AtLeast, AliasOk, Footprint, Gave, Pending, NewFront;
      if oldfirst == top {
        PrependToTop(p, nb);
      } else if oldfirst == dv {
        PrependToVictim(p, nb);
      } else {
        PrependToBin(p, oldfirst, nb);
      }
      r := p + 16;
    }

    /** The case of sys_alloc that puts a region before a segment: the record is changed and the block carved out. */
    method Prepend(sp: int, base: int, size: int, nb: int, ghost k: int) returns (r: int)
      requires Core() && 0 <= k < |s.order| && GainedBefore(mem, s, s.order[k], base, size) && sp == s.g[s.order[k]].rec
      requires leastAddr <= base
      requires footprint == Footprint(s.g, s.order) + size && footprint <= maxFootprint && Pending(s.cs) == {}
      requires nb % 8 == 0 && nb >= MIN_CHUNK_SIZE && size - nb >= MIN_CHUNK_SIZE
      requires AliasIs(alias, base, size, s.g[s.order[k]].exec)
      modifies this`mem, this`smallmap, this`treemap, this`s, this`dv, this`dvsize, this`top, this`topsize
      ensures Ok() && GaveSize(old(mem), old(s), mem, s, r - 16, nb) && r == base + 16
    {
      hide W, HeapOk, Footprint, Gave, Pending, SetInuseSize, LowerRecord, MkHead, Unnoticed, CanPrepend, PrependWrites,
        MappedOk, AtLeast, AliasOk, AliasIs;
      ghost var m0, s0 := mem, s;
      ghost var h := s.order[k];
      RecordReadable(mem, s, k);
      var oldbase := Get(mem, sp + SEG_BASE);
      var m := LowerRecord(mem, sp, base, size);
      m := SetInuseSize(m, base, nb);
      PrependWritten(m0, m, s, k, base, size, nb);
      PrependDone(m0, m, s, h, size);
      FootprintPrependedHere(m0, s, h, size);
      ghost var t := Prepended(s, h, size);
      UnnoticedHeap(m0, s, m, t);
      PrependGrounds(m0, s, alias, leastAddr, k, base, size);
      mem, s := m, t;
      r := PrependAlloc(base, oldbase, nb);
      GaveLater(m0, s0, m, t, mem, s, base, nb);
      SizeGiven(m0, s0, mem, s, base, nb, nb);
    }

    /** segment_holding, which finds nothing in a heap without segments. */
    method SegmentHolding(addr: int) returns (sp: int, ghost k: int)
      requires Core()
      ensures 0 <= k <= |s.order| && (k == |s.order| <==> sp == 0)
      ensures k < |s.order| ==> s.order[k] in s.g && sp == s.g[s.order[k]].rec && HoldsAddress(s.g[s.order[k]], addr)
      ensures forall j :: 0 <= j < k ==> s.order[j] in s.g && !HoldsAddress(s.g[s.order[j]], addr)
    {
      hide W, HeapOk, AtLeast, AliasOk;
      sp, k := GM_SEG, 0;
      if s.order != [] {
        RecordReadable(mem, s, 0);
      } else {
        EmptyRecord(mem, s);
      }
      while sp != 0 && !(Get(mem, sp + SEG_BASE) <= addr < Get(mem, sp + SEG_BASE) + Get(mem, sp + SEG_SIZE))
        invariant 0 <= k <= |s.order|
        invariant k < |s.order| ==>
          s.order[k] in s.g && sp == s.g[s.order[k]].rec && sp != 0 &&
          RecordWords(mem, s.g[s.order[k]], W(mem, sp + SEG_NEXT))
        invariant k < |s.order| ==> forall a :: sp <= a < sp + 32 ==> a in mem
        invariant k == |s.order| ==> sp == 0 || (s.order == [] && sp == GM_SEG)
        invariant forall j :: 0 <= j < k ==> s.order[j] in s.g && !HoldsAddress(s.g[s.order[j]], addr)
        decreases |s.order| - k, sp != 0
      {
        if k < |s.order| {
          RecordReadable(mem, s, k);
          k := k + 1;
          if k < |s.order| {
            RecordReadable(mem, s, k);
          }
        }
        sp := Get(mem, sp + SEG_NEXT);
      }
    }

    /** The loop of add_segment that fills the old segment's end with fenceposts. */
    static method Fenceposts(m: Mem, tnext: int, end: int) returns (r: Mem, nfences: int)
      requires tnext + 32 <= end && tnext % 8 == 0 && end % 8 == 0 && forall a :: tnext <= a < end ==> a in m
      ensures FencesWritten(m, r, tnext, end) && nfences >= 2
      ensures forall i ::
        0 <= i < nfences ==> tnext + 8 * i + HEAD < end && W(r, tnext + 8 * i + HEAD) == FENCEPOST_HEAD
      ensures tnext + 8 * nfences + HEAD >= end
    {
      hide W;
      var p := tnext;
      nfences := 0;
      r := m;
      while true
        invariant p == tnext + 8 * nfences && nfences >= 0 && p + HEAD < end
        invariant nfences < 2 ==> p + 16 <= end - 8 * (2 - nfences)
        invariant r.Keys == m.Keys
        invariant forall i :: 0 <= i < nfences ==> W(r, tnext + 8 * i + HEAD) == FENCEPOST_HEAD
        invariant forall a {:trigger W(r, a)} :: !(tnext + HEAD <= a < end) ==> W(r, a) == W(m, a)
        decreases end - p
      {
        var nextp := p + 8;
        r := Put(r, p + HEAD, FENCEPOST_HEAD);
        nfences := nfences + 1;
        if nextp + HEAD < end {
          p := nextp;
        } else {
          break;
        }
      }
      assert W(r, tnext + 8 * 0 + HEAD) == FENCEPOST_HEAD;
    }

    /** add_segment, the locations and sizes of segment, fenceposts and old top. */
    method PlaceForRecord() returns (csp: int, oldEnd: int)
      requires Core() && s.order != []
      ensures s.order[0] in s.g && HasTop(s) && csp == RecordAt(s) && TopEnd(s, csp)
      ensures oldEnd == s.g[s.order[0]].base + s.g[s.order[0]].size
      ensures s.top + HEAD in mem && (forall a :: csp <= a < oldEnd ==> a in mem) && oldEnd % 8 == 0
      ensures csp % 8 == 0 && top % 8 == 0 && (csp == top || csp >= top + MIN_CHUNK_SIZE) && csp + 72 <= oldEnd
    {
      hide W, HeapOk, AliasOk, AlignOffset, RecordAt;
      RecordPlaceComputed(mem, s);
      RecordReadable(mem, s, 0);
      var oldTop := top;
      HoldsTop(mem, s, 0);
      var oldsp, k := SegmentHolding(oldTop);
      assert k == 0;
      oldEnd := Get(mem, oldsp + SEG_BASE) + Get(mem, oldsp + SEG_SIZE);
      var ssize := PadRequest(32);
      var rawsp := oldEnd - (ssize + 32 + 7);
      var asp := rawsp + AlignOffset(rawsp + 16);
      csp := if asp < oldTop + MIN_CHUNK_SIZE then oldTop else asp;
    }

    /** add_segment, the stores: the new top, the record, the fenceposts, the tags of what is left of the old top. */
    static method StoreSegment(m0: Mem, oldTop: int, csp: int, oldEnd: int, base: int, size: int)
        returns (m: Mem, exec: int, ghost m4: Mem, ghost m5: Mem)
      requires csp >= GM_END && base >= GM_END && size >= PAGE && (csp + 72 <= base || base + size <= csp)
      requires csp % 8 == 0 && base % 8 == 0 && size % 8 == 0 && oldEnd % 8 == 0 && oldTop % 8 == 0
      requires csp + 72 <= oldEnd
      requires forall a :: GM_SEG <= a < GM_END || csp <= a < oldEnd || base <= a < base + size ==> a in m0
      requires csp == oldTop || csp >= oldTop + MIN_CHUNK_SIZE
      requires oldTop + HEAD in m0
      ensures EarlyStores(m0, m4, csp, base, size, exec) && FencesWritten(m4, m5, csp + SEGMENT_CHUNK, oldEnd)
      ensures RestStored(m5, m, oldTop, csp)
      ensures exec == W(m0, base + size - 8)
    {
      hide W, Put, Get, SetInuseSize, SetFreeWithPinuse, CopyRecord, NewRecord, InitTopWords, EarlyStores,
        FencesWritten, RestStored;
      var ssize := PadRequest(32);
      var m1 := InitTopWords(m0, base, size - TOP_FOOT_SIZE);
      var m2 := SetInuseSize(m1, csp, ssize);
      var m3 := CopyRecord(m2, csp + 16);
      exec := Get(m3, base + size - 8);
      ExecRead(m0, m1, m2, m3, csp, base, size);
      var n := NewRecord(m3, base, size, exec, csp + 16);
      EarlyDone(m0, m1, m2, m3, n, csp, base, size, exec);
      EarlyKeys(m0, n, csp, base, size, exec);
      m4 := n;
      m, m5 := StoreFences(n, oldTop, csp, oldEnd);
    }

    /** The fenceposts, and the tags of what is left of the old top. */
    static method StoreFences(n: Mem, oldTop: int, csp: int, oldEnd: int) returns (m: Mem, ghost m5: Mem)
      requires csp % 8 == 0 && oldEnd % 8 == 0 && oldTop % 8 == 0 && csp + 72 <= oldEnd
      requires (csp == oldTop || csp >= oldTop + MIN_CHUNK_SIZE)
      requires (forall a :: csp <= a < oldEnd ==> a in n) && oldTop + HEAD in n
      ensures FencesWritten(n, m5, csp + SEGMENT_CHUNK, oldEnd) && RestStored(m5, m, oldTop, csp)
    {
      hide W, Put, Get, SetFreeWithPinuse, FencesWritten, RestStored;
      var nfences;
      m, nfences := Fenceposts(n, csp + PadRequest(32), oldEnd);
      assert nfences >= 2;
      FencesKeys(n, m, csp + PadRequest(32), oldEnd);
      m5 := m;
      if csp != oldTop {
        RestDone(m, oldTop, csp);
        m := SetFreeWithPinuse(m, oldTop, csp - oldTop, csp);
      }
      RestNone(m5, m, oldTop, csp);
    }

    /** add_segment, up to the point where the rest of the old top, if any, is ready for a bin. */
    method LinkSegment(base: int, size: int) returns (csp: int)
      requires Core() && Gained(mem, s.g, base, size) && s.order != [] && leastAddr <= base
      requires footprint == Footprint(s.g, s.order) + size && footprint <= maxFootprint && Pending(s.cs) == {}
      requires AliasIs(alias, base, size, W(mem, base + size - 8))
      modifies this`mem, this`s, this`top, this`topsize, this`trimCheck
      ensures Ok() && Unnoticed(old(mem), old(s), mem, s) && topsize == size - TOP_FOOT_SIZE
      ensures Pending(s.cs) == if csp == old(top) then {} else {old(top)}
      ensures csp != old(top) ==>
        old(top) in s.cs && s.cs[old(top)].kind.Loose? && s.cs[old(top)].size == csp - old(top)
    {
      hide W, HeapOk, Footprint, Pending, Unnoticed, CanAdd, AddWrites, EarlyStores, FencesWritten, RestStored,
        MappedOk, RecordAt, OldTop, Gained, AtLeast, AliasOk, AliasIs, TopEnd;
      ghost var m0 := mem;
      var oldTop, oldEnd := top, 0;
      csp, oldEnd := PlaceForRecord();
      AddMapped(mem, s, base, size);
      top := base;
      topsize := size - TOP_FOOT_SIZE;
      trimCheck := TRIM_THRESHOLD;
      var m, exec, m4, m5 := StoreSegment(mem, oldTop, csp, oldEnd, base, size);
      ghost var hn := UnusedHome(s.g.Keys);
      ghost var t := Added(s, hn, base, size, exec);
      LinkDone(m0, m4, m5, m, s, hn, base, size, exec, leastAddr, alias);
      mem, s := m, t;
    }

    /** add_segment. */
    method AddSegment(base: int, size: int)
      requires Core() && Gained(mem, s.g, base, size) && s.order != [] && leastAddr <= base
      requires footprint == Footprint(s.g, s.order) + size && footprint <= maxFootprint && Pending(s.cs) == {}
      requires AliasIs(alias, base, size, W(mem, base + size - 8))
      modifies this`mem, this`smallmap, this`treemap, this`s, this`top, this`topsize, this`trimCheck
      ensures Ok() && Unnoticed(old(mem), old(s), mem, s) && Pending(s.cs) == {} && topsize == size - TOP_FOOT_SIZE
    {
      hide W, HeapOk, AtLeast, AliasOk, AliasIs, Footprint, Gained, Pending, Unnoticed, Rekind;
      ghost var m0, s0 := mem, s;
      var oldTop := top;
      var csp := LinkSegment(base, size);
      if csp != oldTop {
        ghost var m1, s1 := mem, s;
        InsertChunk(oldTop, csp - oldTop);
        UnnoticedTrans(m0, s0, m1, s1, mem, s);
      }
    }

    /** check_segment_merge: the executable views of segment and region are equally far away. */
    method MayMerge(sp: int, base: int, size: int, ghost k: int) returns (yes: bool)
      requires Core() && 0 <= k < |s.order| && s.order[k] in s.g && sp == s.g[s.order[k]].rec
      requires Gained(mem, s.g, base, size)
      ensures yes <==> W(mem, base + size - 8) == s.g[s.order[k]].exec
    {
      hide W, HeapOk, AtLeast, AliasOk;
      RecordReadable(mem, s, k);
      PagesAligned(size);
      yes := Get(mem, base + size - 8) == Get(mem, sp + SEG_EXEC);
    }

    /** sys_alloc, when there are segments already: the region extends one of them or becomes a new one.  r is not 0
        if the block has been carved out of the region already. */
    method PlaceRegion(base: int, size: int, nb: int) returns (r: int)
      requires Core() && Gained(mem, s.g, base, size) && s.order != []
      requires AliasIs(alias, base, size, W(mem, base + size - 8))
      requires footprint == Footprint(s.g, s.order) + size && footprint <= maxFootprint && Pending(s.cs) == {}
      requires nb % 8 == 0 && nb >= MIN_CHUNK_SIZE && size > nb + TOP_FOOT_SIZE
      modifies this`mem, this`smallmap, this`treemap, this`s, this`dv, this`dvsize, this`top, this`topsize,
        this`trimCheck, this`leastAddr
      ensures Ok()
      ensures r != 0 ==> GaveSize(old(mem), old(s), mem, s, r - 16, nb)
      ensures r == 0 ==> Unnoticed(old(mem), old(s), mem, s) && Pending(s.cs) == {} && nb < topsize
    {
      hide W, HeapOk, AtLeast, AliasOk, AliasIs, Footprint, Gained, Pending, Unnoticed, GaveSize;
      r := 0;
      TopPositive(mem, s);
      GainedAligned(mem, s, base, size);
      var sp, k := SegmentEndingAt(base);
      var merge := false;
      if sp != 0 {
        merge := MayMerge(sp, base, size, k);
        HoldsTop(mem, s, k);
        RecordReadable(mem, s, k);
      }
      if sp != 0 && merge && Get(mem, sp + SEG_BASE) <= top < Get(mem, sp + SEG_BASE) + Get(mem, sp + SEG_SIZE) {
        Append(base, size);
      } else {
        if base < leastAddr {
          AtLeastLowered(leastAddr, base, s.g);
          leastAddr := base;
        }
        sp, k := SegmentStartingAt(base + size);
        merge := false;
        if sp != 0 {
          merge := MayMerge(sp, base, size, k);
        }
        if sp != 0 && merge {
          r := Prepend(sp, base, size, nb, k);
        } else {
          AddSegment(base, size);
        }
      }
    }

    /** sys_alloc. */
    method SysAlloc(nb: int) returns (r: int)
      requires Ok() && Pending(s.cs) == {}
      requires nb == MAX_SIZE_T || (nb % 8 == 0 && MIN_CHUNK_SIZE <= nb <= MAX_REQUEST + 8)
      modifies this
      ensures Ok()
      ensures r != 0 ==> GaveSize(old(mem), old(s), mem, s, r - 16, nb)
      ensures r == 0 ==> unchanged(this)
      ensures nb == MAX_SIZE_T ==> r == 0
    {
      hide W, HeapOk, AtLeast, AliasOk, AliasIs, Footprint, Gained, Pending, Unnoticed, GaveSize, GaveBlock, U64,
        GranularityAlign;
      ghost var m0, s0 := mem, s;
      r := 0;
      if nb >= MMAP_THRESHOLD {
        NeverDirect(nb);
        assert GranularityAlign(U64(nb + 48 + 7)) <= nb; // mmap_alloc fails its wrap-around check
      }
      RoomOrWrap(nb);
      var req := U64(nb + TOP_FOOT_SIZE + 1);
      var rsize := GranularityAlign(req);
      if rsize > nb {
        var tbase := Mmap(rsize);
        if tbase != CMFAIL {
          FootprintRoom(mem, s, tbase, rsize);
          footprint := U64(footprint + rsize);
          if footprint > maxFootprint {
            maxFootprint := footprint;
          }
          ghost var m1, s1 := mem, s;
          TopPositive(mem, s);
          if top == 0 {
            NoFootprint(s);
            Initialize(tbase, rsize);
          } else {
            r := PlaceRegion(tbase, rsize, nb);
          }
          if r == 0 {
            UnnoticedTrans(m0, s0, m1, s1, mem, s);
            ghost var m2, s2 := mem, s;
            r := FromTop(nb);
            BlockIsSize(m2, s2, mem, s, r - 16, nb);
            SizeLater(m0, s0, m2, s2, mem, s, r - 16, nb);
          } else {
            SizeLater(m0, s0, m1, s1, mem, s, r - 16, nb);
          }
        }
      }
    }

    // Giving memory back

    /** CALL_MUNMAP: the pages go away, or nothing happens. */
    method Munmap(base: int, size: int) returns (ok: bool)
      modifies this`mem
      ensures mem == if ok then WithoutRegion(old(mem), base, size) else old(mem)
    {
      ok := *;
      if ok {
        mem := WithoutRegion(mem, base, size);
      }
    }

    /** The part of release_unused_segments that takes the chunk of an idle segment out of its place. */
    method TakeIdle(p: int, ghost k: int)
      requires Ok() && Pending(s.cs) == {} && Idle(s, k) && p == s.g[s.order[k]].base && p in s.cs
      modifies this`mem, this`treemap, this`s, this`dv, this`dvsize
      ensures Ok() && Unnoticed(old(mem), old(s), mem, s) && Pending(s.cs) == {p} && Droppable(s, k)
      ensures s.g == old(s.g) && s.order == old(s.order) && p in s.cs && s.cs[p].kind.Loose? && !IsSmall(s.cs[p].size)
      ensures p in old(s.cs) && s.cs[p].size == old(s.cs)[p].size
    {
      hide W, HeapOk, AtLeast, AliasOk, Footprint, Unnoticed, Pending, FreeWordsOnly, UnbinnedLarge, Carve, Rekind,
        Droppable, CInuse, PInuse, ChunkSize;
      ghost var m0, s0 := mem, s;
      IdleChunk(mem, s, leastAddr, k);
      if p == dv {
        VictimMoves(mem, s, p, Loose);
        VictimSize(mem, s, p);
        ghost var t := CarveState(s, p, p + s.cs[p].size, p + s.cs[p].size, Loose, User);
        UnnoticedHeap(mem, s, mem, t);
        dv := 0;
        dvsize := 0;
        s := t;
      } else {
        UnlinkLargeChunk(p);
        UnbinnedLargeIs(m0, s0, p);
        BinsUnnoticed(m0, mem, s0, s, p, Loose);
        RekindHere(s0.cs, p, Loose);
      }
      IdleDroppable(s0, s, k);
    }

    /** The body of release_unused_segments: an idle segment is unmapped, or its chunk goes to a bin again. */
    method ReleaseSegment(pred: int, base: int, size: int, next: int, psize: int, ghost k: int) returns (gone: bool)
      requires Ok() && Pending(s.cs) == {} && Idle(s, k) && s.order[k - 1] in s.g && pred == s.g[s.order[k - 1]].rec
      requires base == s.g[s.order[k]].base && size == s.g[s.order[k]].size
      requires next == W(mem, s.g[s.order[k]].rec + SEG_NEXT)
      requires base in s.cs && psize == s.cs[base].size
      modifies this`mem, this`treemap, this`s, this`dv, this`dvsize, this`footprint
      ensures Ok() && Unnoticed(old(mem), old(s), mem, s) && Pending(s.cs) == {}
      ensures gone ==>
        s.order == Skip(old(s.order), k) && s.g == old(s.g) - {old(s.order)[k]} && footprint == old(footprint) - size
      ensures !gone ==> s.order == old(s.order) && s.g == old(s.g) && footprint == old(footprint)
    {
      hide W, HeapOk, AtLeast, AliasOk, Footprint, Unnoticed, Pending, Droppable, Dropped, DropWrites, MappedOk,
        WithoutRegion, FreeWordsOnly, BinnedLarge, Rekind, Skip;
      ghost var m0, s0 := mem, s;
      TakeIdle(base, k);
      ghost var m1, s1 := mem, s;
      NextStays(m0, s0, m1, s1, k, next);
      gone := Munmap(base, size);
      if gone {
        DropMapped(m1, s1, k);
        footprint := footprint - size;
        mem := Put(mem, pred + SEG_NEXT, next);
        DropWritten(m1, mem, s1, k, next);
        DropDone(m1, mem, s1, k);
        GroundsDropped(m1, s1, k, leastAddr, alias);
        UnnoticedHeap(m1, s1, mem, Dropped(s1, k));
        s := Dropped(s1, k);
      } else {
        InsertLargeChunk(base, psize);
        BinnedLargeIs(m1, s1, base);
        BinsUnnoticed(m1, mem, s1, s, base, Binned);
      }
      UnnoticedTrans(m0, s0, m1, s1, mem, s);
    }

    /** release_unused_segments: what it unmaps holds no block. */
    method ReleaseUnusedSegments() returns (released: int)
      requires Ok() && Pending(s.cs) == {} && s.order != []
      modifies this`mem, this`treemap, this`s, this`dv, this`dvsize, this`footprint
      ensures Ok() && Unnoticed(old(mem), old(s), mem, s) && Pending(s.cs) == {}
      ensures released == old(footprint) - footprint && released >= 0 && FewerSegs(old(s.g), s.g)
    {
      hide W, HeapOk, AtLeast, AliasOk, Footprint, Unnoticed, Pending, CInuse, PInuse, ChunkSize, WalkAt, Skip;
      ghost var m0, s0 := mem, s;
      UnnoticedSelf(mem, s);
      released := 0;
      WalkStarts(mem, s);
      var pred := GM_SEG;
      var sp := Get(mem, pred + SEG_NEXT);
      ghost var k := 1;
      while sp != 0
        invariant Ok() && Unnoticed(m0, s0, mem, s) && Pending(s.cs) == {}
        invariant WalkAt(mem, s, k, pred, sp)
        invariant released == old(footprint) - footprint && released >= 0 && FewerSegs(s0.g, s.g)
        decreases |s.order| - k
      {
        WalkNotDone(mem, s, k, pred, sp);
        WalkReads(mem, s, k, pred, sp);
        var base := Get(mem, sp + SEG_BASE);
        var size := Get(mem, sp + SEG_SIZE);
        var next := Get(mem, sp + SEG_NEXT);
        ghost var m1, s1 := mem, s;
        var psize := ChunkSize(Get(mem, base + HEAD));
        if !CInuse(Get(mem, base + HEAD)) && base + psize >= base + size - TOP_FOOT_SIZE {
          var gone := ReleaseSegment(pred, base, size, next, psize, k);
          UnnoticedTrans(m0, s0, m1, s1, mem, s);
          if gone {
            SizePositive(m1, s1, k);
            released := released + size;
            WalkSkips(m1, s1, mem, s, k, pred, sp, next);
            SkipLength(s1.order, k);
            sp := pred;
          } else {
            WalkStays(m1, s1, mem, s, k + 1, sp, next);
            k := k + 1;
          }
        } else {
          k := k + 1;
        }
        pred := sp;
        sp := next;
      }
    }

    /** has_segment_link: every segment but the first holds a record, its own. */
    method HasSegmentLink(ss: int, ghost held: int) returns (yes: bool)
      requires Core() && 0 <= held < |s.order| && s.order[held] in s.g && ss == s.g[s.order[held]].rec
      ensures yes <==> held > 0
    {
      hide W, HeapOk, AtLeast, AliasOk, HoldsAddress;
      RecordReadable(mem, s, held);
      RecordReadable(mem, s, 0);
      var sp := GM_SEG;
      ghost var k := 0;
      while true
        invariant 0 <= k < |s.order| && s.order[k] in s.g && sp == s.g[s.order[k]].rec && (held > 0 ==> k <= held)
        decreases |s.order| - k
      {
        RecordReadable(mem, s, k);
        FirstHasNoRecord(mem, s, k);
        HoldsOwnRecord(mem, s, k);
        HoldsIs(s.g[s.order[held]], sp);
        if k + 1 < |s.order| { RecordReadable(mem, s, k + 1); }
        if Get(mem, ss + SEG_BASE) <= sp < Get(mem, ss + SEG_BASE) + Get(mem, ss + SEG_SIZE) {
          return true;
        }
        sp := Get(mem, sp + SEG_NEXT);
        if sp == 0 {
          return false;
        }
        k := k + 1;
        RecordReadable(mem, s, k);
      }
    }

    /** The part of sys_trim that hands the last pages of top's segment back to the system. */
    method UnmapEnd(extra: int) returns (released: int)
      requires Core() && s.order != [] && 0 <= extra < topsize && extra % PAGE == 0
      modifies this`mem
      ensures s.order[0] in s.g && (released == 0 || released == extra)
      ensures released == 0 ==> mem == old(mem)
      ensures released != 0 ==>
        mem == WithoutRegion(old(mem), s.g[s.order[0]].base + (s.g[s.order[0]].size - extra), extra)
    {
      hide W, HeapOk, AtLeast, AliasOk, WithoutRegion;
      ghost var m0 := mem;
      released := 0;
      TrimWords(mem, s, extra);
      HoldsTop(mem, s, 0);
      var sp, k := SegmentHolding(top);
      assert k == 0;
      if Get(mem, sp + SEG_SIZE) >= extra {
        var pinned := HasSegmentLink(sp, 0);
        if !pinned {
          var newsize := Get(mem, sp + SEG_SIZE) - extra;
          var start := Get(mem, sp + SEG_BASE) + newsize;
          var ok := Munmap(start, extra);
          if ok {
            released := extra;
            WithoutNone(m0, start, extra);
          }
        }
      }
    }

    /** The part of sys_trim that shrinks top by whole pages. */
    method ShrinkTop(pad: int) returns (released: int)
      requires Ok() && Pending(s.cs) == {} && s.order != [] && 0 <= pad < topsize
      modifies this`mem, this`s, this`topsize, this`footprint, this`trimCheck
      ensures Ok() && Unnoticed(old(mem), old(s), mem, s) && Pending(s.cs) == {} && s.order == old(s.order)
      ensures released == old(footprint) - footprint == old(topsize) - topsize && released >= 0 && released % PAGE == 0
      ensures topsize > pad
    {
      hide W, HeapOk, AtLeast, AliasOk, Footprint, Unnoticed, Pending, TrimStores, InitTopWords, WithoutRegion, Surplus;
      ghost var m0 := mem;
      UnnoticedSelf(mem, s);
      SurplusIs(topsize, pad);
      var extra := Surplus(topsize, pad);
      TrimReady(mem, s, extra);
      released := UnmapEnd(extra);
      if released != 0 {
        ghost var m1 := mem;
        var m := Put(mem, GM_SEG + SEG_SIZE, Get(mem, GM_SEG + SEG_SIZE) - released);
        m := InitTopWords(m, top, topsize - released);
        TrimStored(m0, m1, m, s, extra);
        TrimDone(m0, m, s, extra, leastAddr, alias);
        mem := m;
        footprint := footprint - released;
        topsize := topsize - released;
        trimCheck := TRIM_THRESHOLD;
        s := Resized(s, -extra);
      }
    }

    /** sys_trim. */
    method SysTrim(pad: int) returns (trimmed: bool)
      requires Ok() && Pending(s.cs) == {} && 0 <= pad < TWO64
      modifies this`mem, this`treemap, this`s, this`dv, this`dvsize, this`topsize, this`footprint, this`trimCheck
      ensures Ok() && Unnoticed(old(mem), old(s), mem, s) && Pending(s.cs) == {}
      ensures footprint <= old(footprint) && (trimmed <==> footprint < old(footprint))
      ensures old(topsize) > pad + TOP_FOOT_SIZE ==> topsize > pad + TOP_FOOT_SIZE
      ensures old(topsize) <= pad + TOP_FOOT_SIZE || pad >= MAX_REQUEST ==> topsize == old(topsize)
      ensures topsize <= old(topsize) && (old(topsize) - topsize) % PAGE == 0
    {
      hide W, HeapOk, AtLeast, AliasOk, Footprint, Unnoticed, Pending, FewerSegs;
      ghost var m0, s0 := mem, s;
      UnnoticedSelf(mem, s);
      TopPositive(mem, s);
      var released := 0;
      if pad < MAX_REQUEST && top != 0 {
        var room := pad + TOP_FOOT_SIZE;
        if topsize > room {
          released := ShrinkTop(room);
        }
        ghost var m1, s1 := mem, s;
        var more := ReleaseUnusedSegments();
        UnnoticedTrans(m0, s0, m1, s1, mem, s);
        released := released + more;
        if released == 0 {
          trimCheck := MAX_SIZE_T;
        }
      }
      trimmed := released != 0;
    }

    // Allocation

    /** The part of dlmalloc that serves a small request from the bins. */
    method MallocSmall(nb: int) returns (r: int)
      requires Ok() && nb % 8 == 0 && MIN_CHUNK_SIZE <= nb < MIN_LARGE_SIZE
      modifies this`mem, this`smallmap, this`treemap, this`s, this`dv, this`dvsize
      ensures r != 0 ==> Ok() && GaveBlock(old(mem), old(s), mem, s, r - 16, nb) && FromBin(old(s), nb, r - 16)
      ensures r == 0 ==> unchanged(this) && NoBin(s, nb)
    {
      hide W, HeapOk, AtLeast, AliasOk, Footprint, GaveBlock, LeastFit, Fits, NoBin, NonZero, And, LeftBits, LeastBit,
        IdxToBit;
      var idx := SmallIndex(nb);
      var smallbits := Shr(smallmap, idx);
      ShiftedBits(smallmap, idx);
      if smallbits[0] || smallbits[1] {
        idx := idx + if smallbits[0] then 0 else 1;
        r := SmallWhole(idx, nb);
        FitPositive(old(mem), old(s), nb, r - 16);
        return;
      } else if nb > dvsize {
        if NonZero(smallbits) {
          NextSmallBin(smallmap, idx);
          var leftbits := And(Shl(smallbits, idx), LeftBits(IdxToBit(idx)));
          var leastbit := LeastBit(leftbits);
          LeastBitIsFirst(leftbits);
          var i := BitToIdx(leastbit);
          r := SmallSplit(i, nb);
          FitPositive(old(mem), old(s), nb, r - 16);
          return;
        } else if NonZero(treemap) {
          NoSmallFits(mem, s, nb, 32);
          r := TmallocSmall(nb);
          FitPositive(old(mem), old(s), nb, r - 16);
          return;
        }
        NoBinAtAll(mem, s, nb);
      } else {
        NoBinNear(mem, s, nb);
      }
      r := 0;
    }

    /** What dlmalloc does when no bin chunk serves: the victim, else top, else more memory from the system. */
    method FromVictimOrTop(nb: int) returns (r: int)
      requires Valid() && (nb == MAX_SIZE_T || (nb % 8 == 0 && MIN_CHUNK_SIZE <= nb <= MAX_REQUEST + 8 && NoBin(s, nb)))
      modifies this
      ensures Ok()
      ensures r != 0 ==> GaveSize(old(mem), old(s), mem, s, r - 16, nb)
      ensures r == 0 ==> unchanged(this)
      ensures nb == MAX_SIZE_T ==> r == 0
      ensures nb != MAX_SIZE_T && !old(NeedsMore(s, nb)) ==>
        r != 0 && Serves(old(s), nb, r - 16) && s.g == old(s.g) && s.order == old(s.order)
    {
      hide W, HeapOk, AtLeast, AliasOk, Footprint, GaveBlock, GaveSize, FromBin, NoBin, Serves, NeedsMore, Pending;
      ghost var m0, s0 := mem, s;
      VictimBounded(mem, s);
      NoneServes(s, nb);
      if nb <= dvsize {
        if dvsize - nb >= MIN_CHUNK_SIZE {
          r := SplitVictim(nb);
        } else {
          r := ExhaustVictim(nb);
        }
      } else if nb < topsize {
        r := FromTop(nb);
      } else {
        r := SysAlloc(nb);
        return;
      }
      BlockIsSize(m0, s0, mem, s, r - 16, nb);
    }

    /** dlmalloc.  A request is served from a least fitting bin chunk, the victim or top, in the order that Serves
        spells out; only when none of them can does the system get asked. */
    method Malloc(bytes: int) returns (r: int)
      requires Valid() && 0 <= bytes < TWO64
      modifies this
      ensures Valid()
      ensures r == 0 ==> unchanged(this)
      ensures r != 0 ==> bytes < MAX_REQUEST && r % 8 == 0 && GaveSize(old(mem), old(s), mem, s, r - 16, Request(bytes))
      ensures bytes < MAX_REQUEST && !old(NeedsMore(s, Request(bytes))) ==>
        r != 0 && Serves(old(s), Request(bytes), r - 16) && s.g == old(s.g) && s.order == old(s.order)
    {
      hide W, HeapOk, AtLeast, AliasOk, Footprint, GaveBlock, GaveSize, FromBin, NoBin, Serves, NeedsMore, Pending;
      ghost var m0, s0 := mem, s;
      var nb;
      r := 0;
      if bytes <= MAX_SMALL_REQUEST {
        nb := SmallRequest(bytes);
        r := MallocSmall(nb);
      } else if bytes >= MAX_REQUEST {
        nb := MAX_SIZE_T;
      } else {
        nb := PadRequest(bytes);
        r := TmallocLarge(nb);
      }
      if r != 0 {
        FoundServes(s0, nb, r - 16);
        BlockIsSize(m0, s0, mem, s, r - 16, nb);
      } else {
        r := FromVictimOrTop(nb);
        if r == 0 {
          return;
        }
      }
      SizeAligned(m0, s0, mem, s, r - 16, nb);
    }

    // Deallocation

    /** The cases of dlfree where the next chunk is in use: the freed memory becomes the victim, if that is what
        precedes it, or goes to a bin. */
    method FreeBeforeUsed(lo: int, b: int, next: int)
      requires Ok() && Freeing(mem, s, lo, b, next) && InUse(s.cs[next].kind)
      modifies this`mem, this`smallmap, this`treemap, this`s, this`dvsize
      ensures Ok() && Took(old(mem), old(s), mem, s, b) && Pending(s.cs) == {} && s.g == old(s.g)
      ensures s.order == old(s.order)
    {
      hide W, HeapOk, AtLeast, AliasOk, Footprint, Pending, SetFreeWithPinuse, Took, Carve, Span, NextInUse, NextTop,
        Unnoticed, Freeing, Rekind;
      ghost var m0, s0 := mem, s;
      FreeMapped(mem, s, lo, b, next);
      FreeUpTo(mem, s, lo, b, next);
      FreeParts(mem, s, lo, b, next);
      var psize := next - lo;
      mem := SetFreeWithPinuse(mem, lo, psize, next);
      ghost var k := if lo == s.dv then Dv else Loose;
      ghost var t := CarveState(s, lo, next, next, k, User);
      SpanFreed(m0, mem, s, lo, b, next, k);
      TookHeap(m0, s, mem, t, b);
      PendingOnly(s, t, lo, next, k.Loose?);
      if lo == dv {
        dvsize := psize;
        s := t;
      } else {
        s := t;
        InsertChunk(lo, psize);
        TookBefore(m0, s0, SetFreeWithPinuse(m0, lo, psize, next), t, mem, s, b);
      }
    }

    /** The case of dlfree where the next chunk is top: the freed memory becomes part of it, and pages may be given
        back. */
    method FreeBeforeTop(lo: int, b: int, next: int)
      requires Ok() && Freeing(mem, s, lo, b, next) && next == top
      modifies this`mem, this`treemap, this`s, this`dv, this`dvsize, this`top, this`topsize,
        this`footprint, this`trimCheck
      ensures Ok() && Took(old(mem), old(s), mem, s, b) && Pending(s.cs) == {}
    {
      hide W, HeapOk, AtLeast, AliasOk, Footprint, Pending, Took, Carve, Span, NextTop, Unnoticed, Freeing, Put;
      ghost var m0, s0 := mem, s;
      FreeMapped(mem, s, lo, b, next);
      FreeToTop(mem, s, lo, b, next);
      FreeParts(mem, s, lo, b, next);
      var tsize := topsize + (next - lo);
      topsize := tsize;
      top := lo;
      mem := Put(mem, lo + HEAD, tsize + PINUSE_BIT);
      if lo == dv {
        dv := 0;
        dvsize := 0;
      }
      ghost var hi := s.top + s.topsize;
      ghost var t := CarveState(s, lo, hi, hi, Top, User);
      SpanJoinsTop(m0, mem, s, lo, b, hi);
      TookHeap(m0, s, mem, t, b);
      PendingOnly(s, t, lo, hi, false);
      s := t;
      if tsize > trimCheck {
        ghost var m1, s1 := mem, s;
        FreeSeen(m0, s0, lo, b, next);
        var trimmed := SysTrim(0);
        TookBefore(m0, s0, m1, s1, mem, s, b);
      }
    }

    /** The case of dlfree where the next chunk is the victim, which grows to the front. */
    method FreeBeforeVictim(lo: int, b: int, next: int)
      requires Ok() && Freeing(mem, s, lo, b, next) && next in s.cs && s.cs[next].kind.Dv? && next == dv
      modifies this`mem, this`s, this`dv, this`dvsize
      ensures Ok() && Took(old(mem), old(s), mem, s, b) && Pending(s.cs) == {} && s.g == old(s.g)
      ensures s.order == old(s.order)
    {
      hide W, HeapOk, AtLeast, AliasOk, Footprint, Pending, SetFreeSize, Took, Carve, Span, NextInUse, NextTop, Freeing;
      ghost var m0 := mem;
      FreeMapped(mem, s, lo, b, next);
      FreeToVictim(mem, s, lo, b, next);
      FreeParts(mem, s, lo, b, next);
      var dsize := dvsize + (next - lo);
      dvsize := dsize;
      dv := lo;
      mem := SetFreeSize(mem, lo, dsize);
      ghost var t := CarveState(s, lo, lo + dsize, lo + dsize, Dv, User);
      SpanFreed(m0, mem, s, lo, b, lo + dsize, Dv);
      TookHeap(m0, s, mem, t, b);
      PendingOnly(s, t, lo, lo + dsize, false);
      s := t;
    }

    /** The case of dlfree where the next chunk is binned: it is joined, and the whole becomes the victim or is
        binned. */
    method FreeBeforeBinned(lo: int, b: int, next: int)
      requires Ok() && Freeing(mem, s, lo, b, next) && next in s.cs && s.cs[next].kind.Binned?
      modifies this`mem, this`smallmap, this`treemap, this`s, this`dvsize
      ensures Ok() && Took(old(mem), old(s), mem, s, b) && Pending(s.cs) == {} && s.g == old(s.g)
      ensures s.order == old(s.order)
    {
      hide W, HeapOk, AtLeast, AliasOk, Footprint, Pending, SetFreeSize, Took, Carve, Span, NextInUse, NextTop,
        Unnoticed, Freeing, Rekind, CInuse, PInuse, ChunkSize, FreeWordsOnly;
      ghost var m0, s0 := mem, s;
      FreeMapped(mem, s, lo, b, next);
      FreeParts(mem, s, lo, b, next);
      FreeSeen(mem, s, lo, b, next);
      var psize := next - lo;
      var nsize := ChunkSize(Get(mem, next + HEAD));
      psize := psize + nsize;
      UnlinkChunk(next, nsize);
      ghost var m1, s1 := mem, s;
      FreeForward(m0, s0, mem, s, lo, b, next);
      RekindKeeps(s0.cs, next, lo);
      mem := SetFreeSize(mem, lo, psize);
      ghost var k := if lo == s.dv then Dv else Loose;
      ghost var t := CarveState(s, lo, lo + psize, lo + psize, k, User);
      SpanFreed(m1, mem, s1, lo, b, lo + psize, k);
      TookLater(m0, s0, m1, s1, mem, t, b);
      TookHeap(m0, s0, mem, t, b);
      PendingOnly(s, t, lo, lo + psize, k.Loose?);
      if lo == dv {
        dvsize := psize;
        s := t;
      } else {
        s := t;
        ghost var m2 := mem;
        InsertChunk(lo, psize);
        TookBefore(m0, s0, m2, t, mem, s, b);
      }
    }

    /** dlfree.  The runtime checks of addresses and tags always pass. */
    method Free(a: int)
      requires Valid() && (a == 0 || a - 16 in Users(s.cs))
      modifies this
      ensures Valid()
      ensures a == 0 ==> unchanged(this)
      ensures a != 0 ==> Took(old(mem), old(s), mem, s, a - 16)
    {
      hide W, HeapOk, AtLeast, AliasOk, Footprint, Pending, Took, Unnoticed, Freeing, FreeBefore, Recognized, Rekind,
        CInuse, PInuse, ChunkSize, Users, FreeWordsOnly;
      if a == 0 {
        return;
      }
      ghost var m0, s0 := mem, s;
      var b := a - 16;
      BlockSeen(mem, s, b);
      RecognizedTags(mem, s, b);
      AddressOk(mem, s, leastAddr, b);
      assert b >= leastAddr && CInuse(Get(mem, b + HEAD));
      var psize := ChunkSize(Get(mem, b + HEAD));
      var next := b + psize;
      var p := b;
      UnnoticedSelf(mem, s);
      if !PInuse(Get(mem, b + HEAD)) {
        var prevsize := Get(mem, b);
        BeforeSeen(mem, s, b);
        FreeBeforeIs(mem, s, b);
        assert prevsize % 2 == 0;
        p := b - prevsize;
        AddressOk(mem, s, leastAddr, p);
        assert p >= leastAddr;
        if p != dv {
          UnlinkChunk(p, prevsize);
          FreeingAfterUnlink(m0, s0, mem, s, p, b);
        } else {
          FreeingAfterVictim(mem, s, p, b);
        }
      }
      ghost var m1, s1 := mem, s;
      FreeSeen(mem, s, p, b, next);
      RecognizedTags(mem, s, next);
      assert p < next && PInuse(Get(mem, next + HEAD)) by { NextPinned(mem, s, p, b, next); }
      if !CInuse(Get(mem, next + HEAD)) {
        if next == top {
          FreeBeforeTop(p, b, next);
        } else if next == dv {
          FreeBeforeVictim(p, b, next);
        } else {
          FreeBeforeBinned(p, b, next);
        }
      } else {
        FreeBeforeUsed(p, b, next);
      }
      TookLater(m0, s0, m1, s1, mem, s, b);
    }
  }
}
