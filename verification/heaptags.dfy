/** The macros that write boundary tags, and what each of their uses does to the heap. */
module HeapTags {
  import opened Bins
  import opened HeapState
  import opened HeapSteps
  import opened Tiles
  import opened Words

  function OrPinuse(h: int): int {
    if PInuse(h) then h else h + PINUSE_BIT
  }

  function AndNotPinuse(h: int): int {
    if PInuse(h) then h - PINUSE_BIT else h
  }

  /** set_inuse_and_pinuse. */
  function SetInuseAndPinuse(m: Mem, p: int, size: int): (r: Mem)
    requires p + HEAD in m && p + size + HEAD in m
    ensures r.Keys == m.Keys
  {
    var m1 := Put(m, p + HEAD, size + PINUSE_BIT + CINUSE_BIT);
    Put(m1, p + size + HEAD, OrPinuse(Get(m1, p + size + HEAD)))
  }

  /** set_size_and_pinuse_of_inuse_chunk. */
  function SetInuseSize(m: Mem, p: int, size: int): (r: Mem)
    requires p + HEAD in m
    ensures r.Keys == m.Keys
  {
    Put(m, p + HEAD, size + PINUSE_BIT + CINUSE_BIT)
  }

  /** set_size_and_pinuse_of_free_chunk. */
  function SetFreeSize(m: Mem, p: int, size: int): (r: Mem)
    requires p + HEAD in m && p + size in m
    ensures r.Keys == m.Keys
  {
    Put(Put(m, p + HEAD, size + PINUSE_BIT), p + size, size)
  }

  /** set_free_with_pinuse. */
  function SetFreeWithPinuse(m: Mem, p: int, size: int, n: int): (r: Mem)
    requires p + HEAD in m && p + size in m && n + HEAD in m
    ensures r.Keys == m.Keys
  {
    SetFreeSize(Put(m, n + HEAD, AndNotPinuse(Get(m, n + HEAD))), p, size)
  }

  // Neighbours

  /** n is the chunk right after p, in the same segment. */
  ghost predicate Follows(cs: Chunks, p: int, n: int) {
    p in cs && n == p + cs[p].size && n in cs && cs[n].home == cs[p].home && cs[n].pin == InUse(cs[p].kind)
  }

  /** p lies in a segment, at or before its limit. */
  ghost predicate Placed(s: State, p: int) {
    p in s.cs && s.cs[p].home in s.g && p + s.cs[p].size <= s.g[s.cs[p].home].limit && s.order != []
  }

  /** What follows a chunk that can be moved, other than top, is another chunk. */
  lemma NotLast(s: State, p: int)
    requires ShapeOk(s) && p in s.cs && !s.cs[p].kind.Top? && !s.cs[p].kind.Record?
    ensures Follows(s.cs, p, p + s.cs[p].size) && Placed(s, p)
  {
    hide Coalesced, BinnedIs, DvOk, Firsts, SegsOk;
    assert NextOk(p, s.cs, s.g);
    var h := s.cs[p].home;
    var k :| 0 <= k < |s.order| && s.order[k] == h;
    if k > 0 {
      assert RecordIn(s.cs, h, s.g[h]);
    }
  }

  ghost predicate FreeAlone(cs: Chunks, p: int) {
    p in cs && cs[p].pin && Follows(cs, p, p + cs[p].size) && InUse(cs[p + cs[p].size].kind)
  }

  lemma FreeNeighbour(s: State, p: int)
    requires ShapeOk(s) && p in s.cs && !InUse(s.cs[p].kind) && !s.cs[p].kind.Top?
    ensures FreeAlone(s.cs, p) && Placed(s, p)
  {
    hide BinnedIs, DvOk, Firsts, SegsOk, RecordPlace, TopOk, Linked, NoOverlap;
    NotLast(s, p);
  }

  lemma OneChunk(s: State, p: int)
    requires ShapeOk(s) && p in s.cs
    ensures forall q :: q in s.cs && p <= q < p + s.cs[p].size ==> q == p
    ensures s.cs[p].home in s.g && p % 8 == 0 && s.cs[p].size % 8 == 0 && s.cs[p].size > 0
    ensures p + s.cs[p].size <= s.g[s.cs[p].home].limit
  {
    hide BinnedIs, DvOk, Firsts, SegsOk, RecordPlace, TopOk, Linked, Coalesced;
  }

  // Giving a free chunk to a client

  lemma WholeTags(m0: Mem, m: Mem, s: State, p: int)
    requires HeapOk(m0, s) && p in s.cs && (s.cs[p].kind.Loose? || s.cs[p].kind.Dv?)
    requires var n := p + s.cs[p].size; p + HEAD in m0 && n + HEAD in m0 && m == SetInuseAndPinuse(m0, p, s.cs[p].size)
    ensures var n := p + s.cs[p].size;
      CarveOk(s, p, n, n, User, User) && OnlyTags(m0, m, p, n, n) && NewTags(m, s.cs, p, n, n, User, User)
    ensures m.Keys == m0.Keys
  {
    hide W, Tiling, Carve, TopOk, BinnedIs, RecordPlace, DvOk, Coalesced, TagsOk, FencesOk, BinsOk, SegList, MappedOk;
    var n := p + s.cs[p].size;
    FreeNeighbour(s, p);
    OneChunk(s, p);
    TopNot(s, p);
    CarveAt(s.cs, p, n, n, User, User, p);
    CarveAt(s.cs, p, n, n, User, User, n);
    TagsAt(m0, s, p);
    TagsAt(m0, s, n);
    HeadFields(s.cs[n].size, s.cs[n].pin, InUse(s.cs[n].kind));
  }

  lemma TagsAt(m: Mem, s: State, p: int)
    requires HeapOk(m, s) && p in s.cs
    ensures HeadOk(m, p, s.cs[p]) && FootOk(m, p, s.cs[p])
    ensures s.cs[p].size % 8 == 0 && s.cs[p].size >= 8
    ensures s.cs[p].kind.Top? || s.cs[p].size >= MIN_CHUNK_SIZE
  {
    hide W, BinsOk, SegList, MappedOk, FencesOk, MkHead, Linked, Firsts, NoOverlap, Coalesced, BinnedIs, DvOk, TopOk,
      RecordPlace;
  }

  /** Top is not inside another chunk, and dv is where it is said to be. */
  lemma TopNot(s: State, p: int)
    requires ShapeOk(s) && p in s.cs && !s.cs[p].kind.Top?
    ensures s.order != [] ==> !(p <= s.top < p + s.cs[p].size)
    ensures s.cs[p].kind.Dv? ==> s.dv == p && s.dvsize == s.cs[p].size
  {
    hide BinnedIs, Linked, Firsts, SegsOk, RecordPlace, Coalesced;
    DvPositive(s);
  }

  // Splitting a free chunk: the front goes to a client, the rest stays free

  /** The three tag words of a split have been written. */
  ghost predicate SplitWritten(m0: Mem, m: Mem, p: int, nb: int, size: int) {
    && m.Keys == m0.Keys
    && W(m, p + HEAD) == nb + PINUSE_BIT + CINUSE_BIT && W(m, p + nb + HEAD) == size - nb + PINUSE_BIT
    && W(m, p + size) == size - nb
    && forall a {:trigger W(m, a)} :: a != p + HEAD && a != p + nb + HEAD && a != p + size ==> W(m, a) == W(m0, a)
  }

  lemma SplitPuts(m0: Mem, m: Mem, p: int, nb: int, size: int)
    requires p % 8 == 0 && nb % 8 == 0 && size % 8 == 0 && nb > 0 && size - nb >= MIN_CHUNK_SIZE
    requires p + HEAD in m0 && p + nb + HEAD in m0 && p + size in m0
    requires m == SetFreeSize(SetInuseSize(m0, p, nb), p + nb, size - nb) ||
      m == SetInuseSize(SetFreeSize(m0, p + nb, size - nb), p, nb)
    ensures SplitWritten(m0, m, p, nb, size)
  {
    hide W;
  }

  lemma SplitTags(m0: Mem, m: Mem, s: State, p: int, nb: int, k2: Kind)
    requires HeapOk(m0, s) && p in s.cs && (s.cs[p].kind.Loose? || s.cs[p].kind.Dv?) && (k2.Loose? || k2.Dv?)
    requires k2.Dv? ==> s.dvsize == 0 || s.cs[p].kind.Dv?
    requires nb % 8 == 0 && nb >= MIN_CHUNK_SIZE && s.cs[p].size - nb >= MIN_CHUNK_SIZE
    requires SplitWritten(m0, m, p, nb, s.cs[p].size)
    ensures var n := p + s.cs[p].size;
      CarveOk(s, p, p + nb, n, User, k2) && OnlyTags(m0, m, p, p + nb, n) && NewTags(m, s.cs, p, p + nb, n, User, k2)
  {
    hide W, HeapOk, ShapeOk, Carve;
    ShapeHere(m0, s);
    var n := p + s.cs[p].size;
    FreeNeighbour(s, p);
    OneChunk(s, p);
    TopNot(s, p);
    CarveAt(s.cs, p, p + nb, n, User, k2, p);
    CarveAt(s.cs, p, p + nb, n, User, k2, p + nb);
    CarveAt(s.cs, p, p + nb, n, User, k2, n);
    TagsAt(m0, s, p);
    TagsAt(m0, s, n);
    OneChunk(s, n);
  }

  lemma ShapeHere(m: Mem, s: State)
    requires HeapOk(m, s)
    ensures ShapeOk(s)
  {
    hide W, ShapeOk;
  }

  /** The same for top, whose rest has no foot. */
  lemma TopSplitTags(m0: Mem, m: Mem, s: State, nb: int)
    requires HeapOk(m0, s) && s.order != [] && nb % 8 == 0 && MIN_CHUNK_SIZE <= nb < s.topsize
    requires s.top + HEAD in m0 && s.top + nb + HEAD in m0
    requires m == SetInuseSize(Put(m0, s.top + nb + HEAD, s.topsize - nb + PINUSE_BIT), s.top, nb)
    ensures s.top in s.cs
    ensures var n := s.top + s.topsize;
      CarveOk(s, s.top, s.top + nb, n, User, Top) && OnlyTags(m0, m, s.top, s.top + nb, n) &&
        NewTags(m, s.cs, s.top, s.top + nb, n, User, Top)
    ensures m.Keys == m0.Keys
    ensures W(m, s.top + s.topsize + HEAD) == W(m0, s.top + s.topsize + HEAD)
  {
    hide W, Tiling, Carve, BinnedIs, RecordPlace, DvOk, Coalesced, TagsOk, FencesOk, BinsOk, SegList, MappedOk;
    TopPlace(s);
    var p, n := s.top, s.top + s.topsize;
    OneChunk(s, p);
    CarveAt(s.cs, p, p + nb, n, User, Top, p);
    CarveAt(s.cs, p, p + nb, n, User, Top, p + nb);
    TagsAt(m0, s, p);
  }

  lemma TopPlace(s: State)
    requires ShapeOk(s) && s.order != []
    ensures s.top in s.cs && s.cs[s.top].kind.Top? && s.cs[s.top].size == s.topsize && s.cs[s.top].home == s.order[0]
    ensures s.order[0] in s.g
    ensures s.top + s.topsize == s.g[s.order[0]].limit && s.top + s.topsize !in s.cs && s.cs[s.top].pin
    ensures s.top > 0 && s.topsize > 0
    ensures s.g[s.order[0]].limit == s.g[s.order[0]].base + s.g[s.order[0]].size - TOP_FOOT_SIZE
    ensures s.g[s.order[0]].rec == GM_SEG
    ensures s.dvsize != 0 ==> s.dv != s.top
  {
    hide BinnedIs, Firsts, RecordPlace, Linked;
    assert SegOk(s.g[s.order[0]]);
  }

  // Freeing: block p joins the free chunk before it, which starts at lo, and the one after it

  predicate Joinable(k: Kind) {
    k.Loose? || k.Dv?
  }

  /** [lo, hi) is block p, or new memory at p, with a free chunk lo before it unless lo == p, and top or a free chunk
      behind it unless what follows is in use. */
  ghost predicate Span(s: State, lo: int, p: int, hi: int) {
    && p in s.cs && (s.cs[p].kind.User? || s.cs[p].kind.Fresh?) && lo in s.cs && s.cs[lo].pin
    && (lo == p || (Follows(s.cs, lo, p) && Joinable(s.cs[lo].kind)))
    && (NextInUse(s, p, hi) || NextFree(s, p, hi) || NextTop(s, p, hi))
  }

  ghost predicate NextInUse(s: State, p: int, hi: int) {
    p in s.cs && hi == p + s.cs[p].size && hi in s.cs && InUse(s.cs[hi].kind)
  }

  ghost predicate NextFree(s: State, p: int, hi: int) {
    && p in s.cs && p + s.cs[p].size in s.cs
    && var n := p + s.cs[p].size;
    Joinable(s.cs[n].kind) && hi == n + s.cs[n].size
  }

  ghost predicate NextTop(s: State, p: int, hi: int) {
    p in s.cs && p + s.cs[p].size == s.top && hi == s.top + s.topsize && s.top in s.cs && s.cs[s.top].kind.Top?
  }

  lemma SpanEnds(s: State, lo: int, p: int, hi: int)
    requires ShapeOk(s) && Span(s, lo, p, hi)
    ensures Placed(s, lo) && lo <= p < hi <= s.g[s.cs[lo].home].limit
    ensures lo % 8 == 0 && hi % 8 == 0 && hi - lo >= MIN_CHUNK_SIZE
    ensures hi in s.cs ==> s.cs[hi].home == s.cs[lo].home && InUse(s.cs[hi].kind)
    ensures !NextTop(s, p, hi) ==> hi in s.cs
    ensures NextTop(s, p, hi) ==> hi == s.g[s.cs[lo].home].limit && hi !in s.cs
  {
    hide ShapeOk, NextInUse, NextFree, NextTop;
    NotLast(s, p);
    NotLast(s, lo);
    OneChunk(s, p);
    OneChunk(s, lo);
    SizeLeast(s, p);
    SpanEnd(s, p, hi);
  }

  lemma SizeLeast(s: State, p: int)
    requires ShapeOk(s) && p in s.cs
    ensures s.cs[p].kind.Top? || s.cs[p].size >= MIN_CHUNK_SIZE
  {
    hide BinnedIs, DvOk, Firsts, SegsOk, RecordPlace, Linked, Coalesced, NoOverlap, TopOk;
  }

  lemma SpanEnd(s: State, p: int, hi: int)
    requires ShapeOk(s) && p in s.cs && Placed(s, p) && Follows(s.cs, p, p + s.cs[p].size) && p % 8 == 0
    requires s.cs[p].size % 8 == 0
    requires NextInUse(s, p, hi) || NextFree(s, p, hi) || NextTop(s, p, hi)
    ensures p + s.cs[p].size <= hi <= s.g[s.cs[p].home].limit && hi % 8 == 0
    ensures hi in s.cs ==> s.cs[hi].home == s.cs[p].home && InUse(s.cs[hi].kind)
    ensures !NextTop(s, p, hi) ==> hi in s.cs
    ensures NextTop(s, p, hi) ==> hi == s.g[s.cs[p].home].limit && hi !in s.cs
  {
    hide ShapeOk;
    var n := p + s.cs[p].size;
    OneChunk(s, n);
    if NextFree(s, p, hi) {
      FreeNeighbour(s, n);
    }
    if NextTop(s, p, hi) {
      TopPlace(s);
    }
  }

  /** The chunks of a span. */
  lemma SpanChunks(s: State, lo: int, p: int, hi: int)
    requires ShapeOk(s) && Span(s, lo, p, hi)
    ensures forall q ::
      q in s.cs && lo <= q < hi ==> q == lo || q == p || (q == p + s.cs[p].size && !NextInUse(s, p, hi))
    ensures ClearInterval(s.cs, lo, hi)
    ensures forall q :: q in s.cs && lo <= q < hi && s.cs[q].kind.User? ==> q == p
    ensures s.order != [] ==> (lo <= s.top < hi <==> NextTop(s, p, hi))
  {
    hide BinnedIs, DvOk, Firsts, SegsOk, RecordPlace, Linked, Coalesced, NoOverlap, Tiling;
    OneChunk(s, p);
    OneChunk(s, lo);
    if !NextInUse(s, p, hi) {
      OneChunk(s, p + s.cs[p].size);
    }
  }

  /** The span may become one free chunk. */
  lemma SpanOk(s: State, lo: int, p: int, hi: int, k: Kind)
    requires ShapeOk(s) && Span(s, lo, p, hi)
    requires k.Top? || (Joinable(k) && !NextTop(s, p, hi))
    requires k.Top? <==> NextTop(s, p, hi)
    requires k.Dv? ==> s.dvsize == 0 || lo <= s.dv < hi
    ensures CarveOk(s, lo, hi, hi, k, User)
  {
    hide BinnedIs, DvOk, RecordPlace, Coalesced, Tiling, NextInUse, NextFree, TopOk;
    SpanEnds(s, lo, p, hi);
    SpanChunks(s, lo, p, hi);
  }

  /** set_free_with_pinuse over a span whose next chunk is in use, or set_size_and_pinuse_of_free_chunk over any. */
  lemma SpanTags(m0: Mem, m: Mem, s: State, lo: int, p: int, hi: int, k: Kind)
    requires HeapOk(m0, s) && Span(s, lo, p, hi) && Joinable(k) && !NextTop(s, p, hi)
    requires lo + HEAD in m0 && hi in m0 && hi + HEAD in m0
    requires if NextInUse(s, p, hi) then m == SetFreeWithPinuse(m0, lo, hi - lo, hi)
      else m == SetFreeSize(m0, lo, hi - lo)
    ensures lo in s.cs && lo < hi && OnlyTags(m0, m, lo, hi, hi) && NewTags(m, s.cs, lo, hi, hi, k, User)
    ensures m.Keys == m0.Keys
  {
    hide W, Tiling, Carve, BinnedIs, RecordPlace, DvOk, Coalesced, TagsOk, FencesOk, BinsOk, SegList, MappedOk, TopOk;
    SpanEnds(s, lo, p, hi);
    CarveAt(s.cs, lo, hi, hi, k, User, lo);
    CarveAt(s.cs, lo, hi, hi, k, User, hi);
    TagsAt(m0, s, hi);
    SpanNext(s, lo, p, hi);
    HeadFields(s.cs[hi].size, s.cs[hi].pin, InUse(s.cs[hi].kind));
  }

  /** What the tags of the chunk after a span say. */
  lemma SpanNext(s: State, lo: int, p: int, hi: int)
    requires ShapeOk(s) && Span(s, lo, p, hi) && !NextTop(s, p, hi)
    ensures hi in s.cs && (s.cs[hi].pin <==> NextInUse(s, p, hi))
  {
    hide BinnedIs, DvOk, Firsts, SegsOk, RecordPlace, Linked, Coalesced, NoOverlap, TopOk, Tiling;
    SpanEnds(s, lo, p, hi);
    NotLast(s, p);
    OneChunk(s, p);
    if NextFree(s, p, hi) {
      FreeNeighbour(s, p + s.cs[p].size);
      OneChunk(s, p + s.cs[p].size);
    }
  }

  /** The head of a span that has become the new top. */
  lemma SpanTopTags(m0: Mem, m: Mem, s: State, lo: int, p: int, hi: int)
    requires HeapOk(m0, s) && Span(s, lo, p, hi) && NextTop(s, p, hi)
    requires lo + HEAD in m0 && m == Put(m0, lo + HEAD, hi - lo + PINUSE_BIT)
    ensures lo in s.cs && lo < hi && OnlyTags(m0, m, lo, hi, hi) && NewTags(m, s.cs, lo, hi, hi, Top, User)
    ensures m.Keys == m0.Keys
    ensures W(m, hi + HEAD) == W(m0, hi + HEAD)
  {
    hide W, Tiling, Carve, BinnedIs, RecordPlace, DvOk, Coalesced, TagsOk, FencesOk, BinsOk, SegList, MappedOk, TopOk;
    SpanEnds(s, lo, p, hi);
    CarveAt(s.cs, lo, hi, hi, Top, User, lo);
  }

  // New memory in front of a segment: a block at its start, the rest joining what follows

  lemma FrontOk(s: State, p: int, mid: int, hi: int, k: Kind)
    requires ShapeOk(s) && Span(s, p, p, hi) && p + MIN_CHUNK_SIZE <= mid <= hi - MIN_CHUNK_SIZE && mid % 8 == 0
    requires k.Top? || (Joinable(k) && !NextTop(s, p, hi))
    requires k.Top? <==> NextTop(s, p, hi)
    requires k.Dv? ==> s.dvsize == 0 || p <= s.dv < hi
    ensures CarveOk(s, p, mid, hi, User, k)
  {
    hide BinnedIs, DvOk, RecordPlace, Coalesced, Tiling, NextInUse, NextFree, TopOk;
    SpanEnds(s, p, p, hi);
    SpanChunks(s, p, p, hi);
  }

  lemma FrontTags(m0: Mem, m: Mem, s: State, p: int, mid: int, hi: int, k: Kind)
    requires HeapOk(m0, s) && Span(s, p, p, hi) && p + MIN_CHUNK_SIZE <= mid <= hi - MIN_CHUNK_SIZE && mid % 8 == 0
    requires Joinable(k) && !NextTop(s, p, hi)
    requires W(m0, p + HEAD) == MkHead(mid - p, true, true)
    requires mid + HEAD in m0 && hi in m0 && hi + HEAD in m0
    requires m == SetFreeWithPinuse(m0, mid, hi - mid, hi) || (m == SetFreeSize(m0, mid, hi - mid) &&
                                                               !NextInUse(s, p, hi))
    ensures p in s.cs && OnlyTags(m0, m, p, mid, hi) && NewTags(m, s.cs, p, mid, hi, User, k)
    ensures m.Keys == m0.Keys
  {
    hide W, Tiling, Carve, BinnedIs, RecordPlace, DvOk, Coalesced, TagsOk, FencesOk, BinsOk, SegList, MappedOk, TopOk;
    SpanEnds(s, p, p, hi);
    CarveAt(s.cs, p, mid, hi, User, k, p);
    CarveAt(s.cs, p, mid, hi, User, k, mid);
    CarveAt(s.cs, p, mid, hi, User, k, hi);
    TagsAt(m0, s, hi);
    SpanNext(s, p, p, hi);
    HeadFields(s.cs[hi].size, s.cs[hi].pin, InUse(s.cs[hi].kind));
  }

  lemma FrontTopTags(m0: Mem, m: Mem, s: State, p: int, mid: int, hi: int)
    requires HeapOk(m0, s) && Span(s, p, p, hi) && p + MIN_CHUNK_SIZE <= mid <= hi - MIN_CHUNK_SIZE && mid % 8 == 0
    requires NextTop(s, p, hi)
    requires W(m0, p + HEAD) == MkHead(mid - p, true, true)
    requires mid + HEAD in m0 && m == Put(m0, mid + HEAD, hi - mid + PINUSE_BIT)
    ensures p in s.cs && OnlyTags(m0, m, p, mid, hi) && NewTags(m, s.cs, p, mid, hi, User, Top)
    ensures m.Keys == m0.Keys
    ensures W(m, hi + HEAD) == W(m0, hi + HEAD)
  {
    hide W, Tiling, Carve, BinnedIs, RecordPlace, DvOk, Coalesced, TagsOk, FencesOk, BinsOk, SegList, MappedOk, TopOk;
    SpanEnds(s, p, p, hi);
    CarveAt(s.cs, p, mid, hi, User, Top, p);
    CarveAt(s.cs, p, mid, hi, User, Top, mid);
  }
}
