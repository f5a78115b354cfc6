/** The heap before its first use, and the freedom its clients have. */
module HeapClient {
  import opened BinIndex
  import opened BitMaps
  import opened Bins
  import opened HeapKept
  import opened HeapState
  import opened HeapTags
  import opened Rings
  import opened SegPrepend
  import opened SegTop
  import opened Tiles
  import opened Tries
  import opened Words

  function Zero(a: int): int {
    0
  }

  /** The allocator's own state, zeroed. */
  function StaticMemory(): Mem {
    map a | GM <= a < GM_END :: Zero(a)
  }

  function EmptyState(): State {
    State(BinState(ZERO_MAP, ZERO_MAP, seq(32, _ => []), seq(32, _ => Nil), map[]), map[], map[], [], 0, 0, 0, 0)
  }

  lemma EmptyHeap()
    ensures HeapOk(StaticMemory(), EmptyState()) && Pending(EmptyState().cs) == {} && Users(EmptyState().cs) == map[]
    ensures AtLeast(0, EmptyState().g) && AliasOk(map[], EmptyState().g)
    ensures Footprint(EmptyState().g, EmptyState().order) == 0
  {
    hide BinBase, BinWidth, TreeIndex, StaticMemory, TreeBins, SmallBins, ShapeOk, SegList, MappedOk;
    EmptyTrees(StaticMemory(), EmptyState().b);
    EmptySmalls(StaticMemory(), EmptyState().b);
    EmptyShape();
    EmptyWords();
  }

  lemma EmptyShape()
    ensures ShapeOk(EmptyState())
  {
  }

  lemma EmptyWords()
    ensures SegList(StaticMemory(), EmptyState().g, EmptyState().order) && MappedOk(StaticMemory(), EmptyState().g)
  {
  }

  lemma EmptySmalls(m: Mem, b: BinState)
    requires b == EmptyState().b
    ensures SmallBins(m, b)
  {
    hide W, RingRep;
  }

  lemma EmptyTrees(m: Mem, b: BinState)
    requires m == StaticMemory() && b == EmptyState().b
    ensures TreeBins(m, b)
  {
    hide BinBase, BinWidth, TreeIndex;
    forall i | 0 <= i < 32 ensures TreeBin(m, b.treemap, i, b.trees[i], b.bn) {
      BinRange(i);
    }
  }

  // What a client writes to its block, the heap does not read

  lemma StoreBins(m: Mem, m': Mem, s: State, p: int, a: int)
    requires HeapOk(m, s) && p in s.cs && s.cs[p].kind.User? && p + 16 <= a < p + s.cs[p].size + 8
    requires forall b {:trigger W(m', b)} :: b != a ==> W(m', b) == W(m, b)
    ensures BinsOk(m', s.b)
  {
    hide W, BinsOk, HeapOk, ShapeOk;
    ShapeOf(m, s);
    ClientWord(s, p, a);
    BinsHere(m, s);
    forall q, b | q in s.b.bn && q + FD <= b < q + s.b.bn[q] ensures W(m', b) == W(m, b) {
      BinnedHere(s, q);
    }
    BinsFrame(m, m', s.b);
  }

  lemma BinsHere(m: Mem, s: State)
    requires HeapOk(m, s)
    ensures BinsOk(m, s.b)
  {
  }

  lemma BinnedHere(s: State, q: int)
    requires ShapeOk(s) && q in s.b.bn
    ensures q in s.cs && s.cs[q].kind.Binned? && s.cs[q].size == s.b.bn[q]
  {
    hide Tiling, Coalesced, DvOk, TopOk, RecordPlace;
  }

  /** A word of a block's contents is no head, no foot in use, no fencepost, no record word and no word of a free
      chunk. */
  lemma ClientWord(s: State, p: int, a: int)
    requires ShapeOk(s) && p in s.cs && s.cs[p].kind.User? && p + 16 <= a < p + s.cs[p].size + 8
    ensures a >= GM_END
    ensures forall q ::
      q in s.cs ==> a != q + HEAD && (!InUse(s.cs[q].kind) && !s.cs[q].kind.Top? ==> a != q + s.cs[q].size)
    ensures forall q :: q in s.cs && q != p ==> a < q + 16 || a >= q + s.cs[q].size + 8
    ensures forall h :: h in s.g ==> a != s.g[h].limit + HEAD
    ensures forall h :: h in s.g ==> a < s.g[h].rec || a >= s.g[h].rec + 32
  {
    hide ShapeOk;
    OneChunk(s, p);
    OneChunkBase(s, p);
    WordsOfSegment(s, s.cs[p].home);
    NoOverlapOf(s);
    NotLast(s, p);
    forall q | q in s.cs
      ensures a != q + HEAD && (!InUse(s.cs[q].kind) && !s.cs[q].kind.Top? ==> a != q + s.cs[q].size)
      ensures q != p ==> a < q + 16 || a >= q + s.cs[q].size + 8
    {
      OneChunk(s, q);
      if !InUse(s.cs[q].kind) && !s.cs[q].kind.Top? {
        FreeNeighbour(s, q);
        FootNotClient(s, p, q);
      }
    }
    SegsOf(s);
    forall h | h in s.g ensures a != s.g[h].limit + HEAD && (a < s.g[h].rec || a >= s.g[h].rec + 32) {
      ClientSegs(s, p, a, h);
    }
  }

  lemma FootNotClient(s: State, p: int, q: int)
    requires ShapeOk(s) && p in s.cs && s.cs[p].kind.User? && q in s.cs && Follows(s.cs, q, q + s.cs[q].size)
    requires !s.cs[q + s.cs[q].size].pin
    ensures q + s.cs[q].size < p + 16 || q + s.cs[q].size >= p + s.cs[p].size + 8
  {
    hide ShapeOk, Placed;
    var n := q + s.cs[q].size;
    OneChunk(s, n);
    OneChunk(s, p);
    NotLast(s, p);
    SameEight(p + s.cs[p].size, n);
  }

  lemma SameEight(a: int, b: int)
    requires a % 8 == 0 && b % 8 == 0
    ensures a <= b < a + 8 ==> a == b
  {
  }

  lemma ClientSegs(s: State, p: int, a: int, h: nat)
    requires ShapeOk(s) && p in s.cs && s.cs[p].kind.User? && p + 16 <= a < p + s.cs[p].size + 8 && h in s.g
    ensures a != s.g[h].limit + HEAD && (a < s.g[h].rec || a >= s.g[h].rec + 32)
  {
    hide ShapeOk;
    OneChunk(s, p);
    OneChunkBase(s, p);
    WordsOfSegment(s, s.cs[p].home);
    WordsOfSegment(s, h);
    NoOverlapOf(s);
    SegsOf(s);
    RecordOf(s, h);
    NotLast(s, p);
    OneChunk(s, p + s.cs[p].size);
  }

  lemma StoreOk(m: Mem, m': Mem, s: State, p: int, a: int)
    requires HeapOk(m, s) && p in s.cs && s.cs[p].kind.User? && p + 16 <= a < p + s.cs[p].size + 8 && m'.Keys == m.Keys
    requires forall b {:trigger W(m', b)} :: b != a ==> W(m', b) == W(m, b)
    ensures HeapOk(m', s)
  {
    hide W, ShapeOk, BinsOk, MkHead;
    ShapeOf(m, s);
    ClientWord(s, p, a);
    StoreBins(m, m', s, p, a);
    forall q | q in s.cs ensures HeadOk(m', q, s.cs[q]) && FootOk(m', q, s.cs[q]) {
      assert HeadOk(m, q, s.cs[q]) && FootOk(m, q, s.cs[q]);
    }
    forall h | h in s.g ensures FenceOk(m', s.g[h]) {
      assert FenceOk(m, s.g[h]);
    }
    OrderIn(s);
    forall k | 0 <= k < |s.order| ensures RecordWords(m', s.g[s.order[k]], NextRec(s.g, s.order, k)) {
      assert RecordWords(m, s.g[s.order[k]], NextRec(s.g, s.order, k));
    }
  }

  lemma StoreHarmless(m: Mem, s: State, p: int, a: int, v: int)
    requires HeapOk(m, s) && p in Users(s.cs) && p + 16 <= a < p + Users(s.cs)[p] + 8
    ensures a in m && HeapOk(Put(m, a, v), s)
    ensures forall q, b {:trigger q in Users(s.cs), W(Put(m, a, v), b)} ::
      q in Users(s.cs) && q != p && q + 16 <= b < q + Users(s.cs)[q] + 8 ==> W(Put(m, a, v), b) == W(m, b)
  {
    hide W, HeapOk, ShapeOk;
    ShapeOf(m, s);
    ChunkMapped(m, s, p, a);
    ClientWord(s, p, a);
    StoreOk(m, Put(m, a, v), s, p, a);
  }
}
