/** The whole-heap invariant, as do_check_malloc_state and traverse_and_check describe it. */
module HeapState {
  import BinIndex
  import opened Bins
  import opened Rings
  import opened Tries
  import opened TrieMem
  import opened TreeSearch
  import opened Tiles
  import opened Words

  /** What the words and fields of the heap stand for: the bins, the chunks, the segments in list order
      (the segment of top first), the designated victim and top. */
  datatype State = State(b: BinState, cs: Chunks, g: Segs, order: seq<nat>,
                         dv: int, dvsize: int, top: int, topsize: int)

  /** A chunk is binned exactly when its kind says so, under its own size. */
  ghost predicate BinnedIs(cs: Chunks, bn: map<int, int>) {
    && (forall p :: p in bn ==> p in cs && cs[p].kind.Binned? && bn[p] == cs[p].size)
    && (forall p :: p in cs && cs[p].kind.Binned? ==> p in bn)
  }

  /** There is at most one designated victim, dv, and dvsize caches its size. */
  ghost predicate DvOk(cs: Chunks, dv: int, dvsize: int) {
    && (dvsize == 0 <==> dv == 0)
    && (dvsize != 0 ==> dv in cs && cs[dv].kind.Dv? && cs[dv].size == dvsize)
    && forall p :: p in cs && cs[p].kind.Dv? ==> p == dv
  }

  /** There is one top chunk, last in the first segment of the list, and topsize caches its size. */
  ghost predicate TopOk(cs: Chunks, g: Segs, order: seq<nat>, top: int, topsize: int) {
    && (order == [] ==> top == 0 && topsize == 0)
    && (order != [] ==>
      && order[0] in g && top in cs && cs[top].kind.Top? && cs[top].size == topsize && cs[top].home == order[0]
      && top + topsize == g[order[0]].limit == g[order[0]].base + g[order[0]].size - TOP_FOOT_SIZE
      && g[order[0]].rec == GM_SEG)
    && forall p :: p in cs && cs[p].kind.Top? ==> p == top
  }

  /** Each segment but the first keeps its record in a chunk of its own, at the end of its tiling. */
  ghost predicate RecordPlace(cs: Chunks, g: Segs, order: seq<nat>) {
    && (forall k :: 0 <= k < |order| ==> order[k] in g)
    && (forall h :: h in g ==> h in order)
    && (forall j, k :: 0 <= j < k < |order| ==> order[j] != order[k])
    && (forall k :: 1 <= k < |order| ==> RecordIn(cs, order[k], g[order[k]]))
    && (forall p :: p in cs && cs[p].kind.Record? ==> cs[p].home in g && g[cs[p].home].rec == p + 16)
  }

  ghost predicate RecordIn(cs: Chunks, h: nat, s: Seg) {
    var p := s.rec - 16;
    p in cs && cs[p].kind.Record? && cs[p].size == SEGMENT_CHUNK && cs[p].home == h && s.limit == p + SEGMENT_CHUNK
  }

  function NextRec(g: Segs, order: seq<nat>, k: int): int
    requires 0 <= k < |order|
    requires forall j :: 0 <= j < |order| ==> order[j] in g
  {
    if k + 1 < |order| then g[order[k + 1]].rec else 0
  }

  /** The words of a segment record. */
  ghost predicate RecordWords(m: Mem, s: Seg, next: int) {
    && W(m, s.rec + SEG_BASE) == s.base && W(m, s.rec + SEG_SIZE) == s.size
    && W(m, s.rec + SEG_NEXT) == next && W(m, s.rec + SEG_EXEC) == s.exec
  }

  /** The list headed by the embedded record visits the segments in order. */
  ghost predicate SegList(m: Mem, g: Segs, order: seq<nat>)
    requires forall j :: 0 <= j < |order| ==> order[j] in g
  {
    && (order == [] ==> W(m, GM_SEG + SEG_BASE) == 0 && W(m, GM_SEG + SEG_SIZE) == 0 && W(m, GM_SEG + SEG_NEXT) == 0)
    && forall k :: 0 <= k < |order| ==> RecordWords(m, g[order[k]], NextRec(g, order, k))
  }

  /** All words of the allocator's own state and of every segment are mapped. */
  ghost predicate MappedOk(m: Mem, g: Segs) {
    && (forall a :: GM <= a < GM_END ==> a in m)
    && (forall h, a :: h in g && g[h].base <= a < g[h].base + g[h].size ==> a in m)
  }

  ghost predicate ShapeOk(s: State) {
    && Tiling(s.cs, s.g) && Coalesced(s.cs) && BinnedIs(s.cs, s.b.bn)
    && DvOk(s.cs, s.dv, s.dvsize) && TopOk(s.cs, s.g, s.order, s.top, s.topsize)
    && RecordPlace(s.cs, s.g, s.order)
  }

  ghost predicate HeapOk(m: Mem, s: State) {
    && ShapeOk(s)
    && TagsOk(m, s.cs) && FencesOk(m, s.g) && BinsOk(m, s.b)
    && SegList(m, s.g, s.order) && MappedOk(m, s.g)
  }

  lemma ShapeOf(m: Mem, s: State)
    requires HeapOk(m, s)
    ensures ShapeOk(s)
  {
  }

  /** The chunks an operation still has to find a place for. */
  function Pending(cs: Chunks): set<int> {
    set p | p in cs && (cs[p].kind.Loose? || cs[p].kind.Fresh?)
  }

  /** Segments are made of whole pages, and least_addr is a lower bound of them all. */
  ghost predicate AtLeast(least: int, g: Segs) {
    forall h :: h in g ==> least <= g[h].base && g[h].base % PAGE == 0 && g[h].size % PAGE == 0 && g[h].size >= PAGE
  }

  /** The executable view of [base, base + size) is e bytes away. */
  ghost predicate AliasIs(alias: map<int, int>, base: int, size: int, e: int) {
    forall a :: base <= a < base + size ==> a in alias && alias[a] == e
  }

  /** Where the executable view of every mapped byte really is, the records of the segments say. */
  ghost predicate AliasOk(alias: map<int, int>, g: Segs) {
    forall h :: h in g ==> AliasIs(alias, g[h].base, g[h].size, g[h].exec)
  }

  /** The sum of the sizes of the segments in a list. */
  function Footprint(g: Segs, order: seq<nat>): int {
    if order == [] then 0 else (if order[0] in g then g[order[0]].size else 0) + Footprint(g, order[1..])
  }

  // Consequences used everywhere

  /** Binned chunks can be read, and their heads show their sizes. */
  lemma BinnedReadable(m: Mem, s: State)
    requires HeapOk(m, s)
    ensures Readable(m, s.b.bn)
  {
    hide W, BinsOk, Linked, Coalesced, NoOverlap, Firsts, DvOk, TopOk, RecordPlace, SegList, MkHead, ChunkSize,
      FencesOk;
    forall p | p in s.b.bn
      ensures ChunkSize(W(m, p + HEAD)) == s.b.bn[p]
    {
      assert HeadOk(m, p, s.cs[p]);
      HeadFields(s.cs[p].size, s.cs[p].pin, false);
    }
  }

  lemma ChunkMapped(m: Mem, s: State, p: int, a: int)
    requires HeapOk(m, s) && p in s.cs && p <= a < p + s.cs[p].size + 16
    ensures a in m
    ensures p >= GM_END && p % 8 == 0 && s.cs[p].size % 8 == 0 && p + s.cs[p].size < TWO64
  {
    hide W, BinsOk, Linked, Coalesced, NoOverlap, Firsts, DvOk, TopOk, RecordPlace, SegList, FencesOk, TagsOk, BinnedIs;
  }

  lemma HeadAt(m: Mem, s: State, p: int)
    requires HeapOk(m, s) && p in s.cs && !s.cs[p].kind.Fresh?
    ensures p + HEAD in m
    ensures var c := s.cs[p]; var h := W(m, p + HEAD);
      h == MkHead(c.size, c.pin, InUse(c.kind)) && ChunkSize(h) == c.size && PInuse(h) == c.pin &&
        CInuse(h) == InUse(c.kind)
  {
    hide W, BinsOk, Linked, Coalesced, NoOverlap, Firsts, DvOk, TopOk, RecordPlace, SegList, MkHead, ChunkSize,
      FencesOk, BinnedIs, PInuse, CInuse, MappedOk;
    ChunkMapped(m, s, p, p + HEAD);
    assert HeadOk(m, p, s.cs[p]);
    HeadFields(s.cs[p].size, s.cs[p].pin, InUse(s.cs[p].kind));
  }

  /** What ok_address checks holds of every chunk. */
  lemma AddressOk(m: Mem, s: State, least: int, p: int)
    requires HeapOk(m, s) && AtLeast(least, s.g) && p in s.cs
    ensures p >= least && p >= GM_END
  {
    hide W, BinsOk, Linked, Coalesced, NoOverlap, Firsts, DvOk, TopOk, RecordPlace, SegList, FencesOk, TagsOk, BinnedIs;
  }

  // Frames

  /** All words the bins depend on are unchanged. */
  ghost predicate SameBinWords(m: Mem, m': Mem, bn: map<int, int>) {
    && (forall a {:trigger W(m', a)} :: SMALLBINS <= a < GM_SEG ==> W(m', a) == W(m, a))
    && (forall p, a {:trigger p in bn, W(m', a)} :: p in bn && p + FD <= a < p + bn[p] ==> W(m', a) == W(m, a))
  }

  lemma BinsFrame(m: Mem, m': Mem, b: BinState)
    requires BinsOk(m, b) && SameBinWords(m, m', b.bn)
    ensures BinsOk(m', b)
  {
    hide W, SmallBin, TreeBin;
    forall i | 0 <= i < 32
      ensures SmallBin(m', b.smallmap, i, b.small[i], b.bn)
      ensures TreeBin(m', b.treemap, i, b.trees[i], b.bn)
    {
      OneSmallFrame(m, m', b, i);
      OneTreeFrame(m, m', b, i);
    }
  }

  lemma OneSmallFrame(m: Mem, m': Mem, b: BinState, i: int)
    requires BnOk(b.bn) && 0 <= i < 32 && |b.small| == 32 && SmallBin(m, b.smallmap, i, b.small[i], b.bn)
    requires SameBinWords(m, m', b.bn)
    ensures SmallBin(m', b.smallmap, i, b.small[i], b.bn)
  {
    hide W, RingRep;
    SmallBinFrame(m, m', b.smallmap, b.smallmap, i, b.small[i], b.bn, b.bn);
  }

  lemma OneTreeFrame(m: Mem, m': Mem, b: BinState, i: int)
    requires BnOk(b.bn) && 0 <= i < 32 && |b.trees| == 32 && TreeBin(m, b.treemap, i, b.trees[i], b.bn)
    requires SameBinWords(m, m', b.bn)
    ensures TreeBin(m', b.treemap, i, b.trees[i], b.bn)
  {
    hide W, TreeRep, TrieOk, BinIndex.TreeIndex;
    forall p | p in Elems(b.trees[i])
      ensures SameNode(m, m', p) && SameKids(m, m', p)
    {
      assert p in b.bn && b.bn[p] >= MIN_LARGE_SIZE;
    }
    TreeBinFrame(m, m', b.treemap, b.treemap, i, b.trees[i], b.bn, b.bn);
  }
}
