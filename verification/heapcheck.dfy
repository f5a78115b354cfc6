/** The checker that dlmalloc.c carries for debugging: run on a valid heap, none of its assertions fails.  Each method
    returns whether all assertions that it has come past hold. */
module HeapCheck {
  import opened BinCheck
  import opened Bins
  import opened TreeSearch
  import opened Heap
  import opened HeapFree
  import opened HeapGrow
  import opened HeapMoves
  import opened HeapSpace
  import opened HeapState
  import opened HeapTags
  import opened HeapTrim
  import opened SegAdd
  import opened SegDrop
  import opened SegPrepend
  import opened SegTop
  import opened Tiles
  import opened Words

  /** Where the walk over segment k ends: at top, or at the first fencepost. */
  function WalkEnd(s: State, k: int): int
    requires 0 <= k < |s.order| && s.order[k] in s.g
  {
    if k == 0 then s.top else s.g[s.order[k]].limit
  }

  /** The bytes that the chunks of the first k segments take, without top. */
  function Walked(s: State, k: int): int
    requires 0 <= k <= |s.order| && forall j :: 0 <= j < |s.order| ==> s.order[j] in s.g
  {
    if k == 0 then 0 else Walked(s, k - 1) + WalkEnd(s, k - 1) - s.g[s.order[k - 1]].base
  }

  /** q is a chunk of segment k, or the walk's end. */
  ghost predicate OnWalk(s: State, k: int, q: int) {
    && 0 <= k < |s.order| && s.order[k] in s.g
    && (q == WalkEnd(s, k) || (q in s.cs && s.cs[q].home == s.order[k] && q < WalkEnd(s, k)))
  }

  /** What the loop of traverse_and_check sees at q: either it is done, or q is a chunk and all that is asserted of it
      holds. */
  ghost predicate ChunkChecks(m: Mem, s: State, least: int, q: int) {
    && q in s.cs && q + HEAD in m && q % 8 == 0 && q >= least && Recognized(m, s, q) && !s.cs[q].kind.Top?
    && var n := q + s.cs[q].size;
    && n in m && n + HEAD in m && PInuse(W(m, n + HEAD)) == InUse(s.cs[q].kind)
    && (!s.cs[q].pin ==> FreeBehind(m, s, q))
    && (!InUse(s.cs[q].kind) ==> W(m, n) == s.cs[q].size && s.cs[q].pin && (n == s.top || CInuse(W(m, n + HEAD))))
  }

  /** The chunk before q is free and its size is the foot before q. */
  ghost predicate FreeBehind(m: Mem, s: State, q: int) {
    q in m && q - W(m, q) in s.cs && s.cs[q - W(m, q)].size == W(m, q) && !InUse(s.cs[q - W(m, q)].kind) &&
      q - W(m, q) + HEAD in m
    && ChunkSize(W(m, q - W(m, q) + HEAD)) == W(m, q)
  }

  lemma WalkStart(m: Mem, s: State, k: int)
    requires HeapOk(m, s) && 0 <= k < |s.order|
    ensures s.order[k] in s.g && OnWalk(s, k, s.g[s.order[k]].base) && s.g[s.order[k]].base in s.cs
    ensures s.cs[s.g[s.order[k]].base].pin
  {
    hide W, HeapOk, ShapeOk;
    ShapeOf(m, s);
    OrderIs(s);
    FirstsOf(s, s.order[k]);
    OneChunk(s, s.g[s.order[k]].base);
    TopPlace(s);
    OneChunkBase(s, s.top);
    WordsOfSegment(s, s.order[k]);
  }

  /** The three tests that end the walk find its end and nothing before it. */
  lemma WalkTest(m: Mem, s: State, k: int, q: int)
    requires HeapOk(m, s) && Pending(s.cs) == {} && OnWalk(s, k, q)
    ensures q + HEAD in m && HoldsAddress(s.g[s.order[k]], q)
    ensures q == WalkEnd(s, k) <==> q == s.top || W(m, q + HEAD) == FENCEPOST_HEAD
  {
    hide W, HeapOk, ShapeOk, Recognized, Pending;
    ShapeOf(m, s);
    OrderIs(s);
    TopPlace(s);
    OneChunkBase(s, s.top);
    OneChunk(s, s.top);
    WordsOfSegment(s, s.order[k]);
    SegMapped(m, s, s.order[k], s.g[s.order[k]].limit + HEAD);
    if q == WalkEnd(s, k) {
      if k > 0 {
        FenceHere(m, s, k);
      } else {
        HeadAt(m, s, s.top);
      }
    } else {
      OneChunk(s, q);
      OneChunkBase(s, q);
      NotTopBefore(s, k, q);
      NotFence(m, s, q);
    }
  }

  lemma FenceHere(m: Mem, s: State, k: int)
    requires HeapOk(m, s) && 1 <= k < |s.order| && s.order[k] in s.g
    ensures W(m, s.g[s.order[k]].limit + HEAD) == FENCEPOST_HEAD
  {
    hide W, ShapeOk, TagsOk, BinsOk, SegList, MappedOk;
    ShapeOf(m, s);
    RecordHome(s, s.order[k]);
    OrderIs(s);
    WordsOfSegment(s, s.order[k]);
    assert FenceOk(m, s.g[s.order[k]]);
  }

  lemma NotFence(m: Mem, s: State, q: int)
    requires HeapOk(m, s) && Pending(s.cs) == {} && q in s.cs && !s.cs[q].kind.Top?
    ensures q + HEAD in m && W(m, q + HEAD) != FENCEPOST_HEAD
  {
    hide W, HeapOk, ShapeOk, Pending;
    ShapeOf(m, s);
    SizeAtLeast(s, q);
    NotFresh(s, q);
    HeadAt(m, s, q);
  }

  lemma NotFresh(s: State, q: int)
    requires Pending(s.cs) == {} && q in s.cs
    ensures !s.cs[q].kind.Fresh? && !s.cs[q].kind.Loose?
  {
    assert q !in Pending(s.cs);
  }

  lemma NotTopBefore(s: State, k: int, q: int)
    requires ShapeOk(s) && 0 <= k < |s.order| && s.order[k] in s.g && q in s.cs && s.cs[q].home == s.order[k]
    requires q < WalkEnd(s, k)
    ensures q != s.top && !s.cs[q].kind.Top?
  {
    hide ShapeOk;
    TopNotAt(s, q);
    OrderIs(s);
    TopPlace(s);
  }

  lemma WalkStep(m: Mem, s: State, least: int, k: int, q: int)
    requires HeapOk(m, s) && AtLeast(least, s.g) && Pending(s.cs) == {} && OnWalk(s, k, q) && q != WalkEnd(s, k)
    ensures ChunkChecks(m, s, least, q)
    ensures OnWalk(s, k, q + s.cs[q].size) && s.cs[q].size > 0
    ensures q + s.cs[q].size <= WalkEnd(s, k)
  {
    hide W, HeapOk, ShapeOk, Recognized, Pending, FreeBehind, PInuse, CInuse, ChunkSize;
    ShapeOf(m, s);
    NotTopBefore(s, k, q);
    AddressOk(m, s, least, q);
    OneChunk(s, q);
    Recognize(m, s, q);
    ChunkMapped(m, s, q, q + s.cs[q].size);
    ChunkMapped(m, s, q, q + s.cs[q].size + HEAD);
    ChunkMapped(m, s, q, q + HEAD);
    WalkNext(m, s, k, q);
    if !s.cs[q].pin {
      BehindFree(m, s, q);
    }
    if !InUse(s.cs[q].kind) {
      TagsAt(m, s, q);
      FreeNeighbour(s, q);
      RecognizedTags(m, s, q + s.cs[q].size);
    }
  }

  /** The next chunk of the walk, or its end; in either case the tag there tells whether q is in use. */
  lemma WalkNext(m: Mem, s: State, k: int, q: int)
    requires HeapOk(m, s) && Pending(s.cs) == {} && OnWalk(s, k, q) && q != WalkEnd(s, k)
    ensures var n := q + s.cs[q].size;
      && OnWalk(s, k, n) && n <= WalkEnd(s, k) && PInuse(W(m, n + HEAD)) == InUse(s.cs[q].kind)
      && (n in s.cs ==> Recognized(m, s, n))
  {
    hide W, HeapOk, ShapeOk, Recognized, Pending;
    ShapeOf(m, s);
    OrderIs(s);
    TopPlace(s);
    OneChunk(s, q);
    OneChunkBase(s, q);
    NotTopBefore(s, k, q);
    LinkedHere(s, q);
    var n := q + s.cs[q].size;
    if n in s.cs {
      Recognize(m, s, n);
      RecognizedTags(m, s, n);
      OneChunkBase(s, n);
      OneChunk(s, n);
    }
    if k > 0 {
      FenceHere(m, s, k);
      if n == s.g[s.order[k]].limit {
        LastIsRecord(s, k, q);
      }
    } else {
      BeforeTop(s, q);
    }
  }

  /** The last chunk of a segment other than the first holds its record. */
  lemma LastIsRecord(s: State, k: int, q: int)
    requires ShapeOk(s) && 1 <= k < |s.order| && s.order[k] in s.g && q in s.cs && s.cs[q].home == s.order[k]
    requires q + s.cs[q].size == s.g[s.order[k]].limit
    ensures s.cs[q].kind.Record?
    ensures s.g[s.order[k]].limit !in s.cs
  {
    hide Coalesced, BinnedIs, DvOk, TopOk, Linked, Firsts;
    assert RecordIn(s.cs, s.order[k], s.g[s.order[k]]);
    WordsOfSegment(s, s.order[k]);
  }

  lemma BehindFree(m: Mem, s: State, q: int)
    requires HeapOk(m, s) && Pending(s.cs) == {} && q in s.cs && !s.cs[q].pin
    ensures FreeBehind(m, s, q)
  {
    hide W, HeapOk, ShapeOk, Pending;
    ShapeOf(m, s);
    var prev := Before(s, q);
    TagsAt(m, s, prev);
    NotFresh(s, prev);
    HeadAt(m, s, prev);
    OneChunk(s, q);
    ChunkMapped(m, s, q, q);
  }

  /** The chunk visited before, if any, ends where the current one begins. */
  ghost predicate Trail(m: Mem, s: State, lastq: int, q: int) {
    lastq == 0 || (lastq in s.cs && lastq + s.cs[lastq].size == q && lastq + HEAD in m &&
                   CInuse(W(m, lastq + HEAD)) == InUse(s.cs[lastq].kind)
      && (q in s.cs ==> s.cs[q].pin == InUse(s.cs[lastq].kind)))
  }

  lemma TrailOn(m: Mem, s: State, k: int, q: int)
    requires HeapOk(m, s) && Pending(s.cs) == {} && OnWalk(s, k, q) && q != WalkEnd(s, k)
    ensures q in s.cs && Trail(m, s, q, q + s.cs[q].size)
  {
    hide W, HeapOk, ShapeOk, Pending, CInuse, ChunkSize, PInuse;
    ShapeOf(m, s);
    Recognize(m, s, q);
    WalkNext(m, s, k, q);
    if q + s.cs[q].size in s.cs {
      RecognizedTags(m, s, q + s.cs[q].size);
    }
  }

  // The checks of single chunks

  /** The links of a free chunk in a bin, and of what is reached by them. */
  lemma LinksMapped(m: Mem, s: State, p: int)
    requires HeapOk(m, s) && p in s.b.bn
    ensures p + FD in m && p + BK in m && W(m, p + FD) + BK in m && W(m, p + BK) + FD in m
    ensures W(m, W(m, p + FD) + BK) == p && W(m, W(m, p + BK) + FD) == p
  {
    hide W, HeapOk, BinsOk, LinksBack, InRing;
    BinsHere(m, s);
    BinnedLinks(m, s.b, p);
    LinkFacts(m, s.b, p);
    LinkMapped(m, s, p);
    LinkMapped(m, s, W(m, p + FD));
    LinkMapped(m, s, W(m, p + BK));
  }

  lemma BinsHere(m: Mem, s: State)
    requires HeapOk(m, s)
    ensures BinsOk(m, s.b) && BinnedIs(s.cs, s.b.bn) && Readable(m, s.b.bn) && forall a :: GM <= a < GM_END ==> a in m
  {
    hide W, BinsOk, Tiling, Coalesced, DvOk, TopOk, RecordPlace, SegList, FencesOk, TagsOk, BinnedIs, Readable;
    BinnedReadable(m, s);
  }

  lemma LinkFacts(m: Mem, b: BinState, p: int)
    requires LinksBack(m, b, p)
    ensures W(m, W(m, p + FD) + BK) == p && W(m, W(m, p + BK) + FD) == p && InRing(b, W(m, p + FD))
    ensures InRing(b, W(m, p + BK))
  {
    hide W, InRing;
  }

  lemma LinkMapped(m: Mem, s: State, q: int)
    requires HeapOk(m, s) && (q in s.b.bn || InRing(s.b, q))
    ensures q + FD in m && q + BK in m
  {
    hide W, HeapOk, BinsOk, BinnedIs;
    BinsHere(m, s);
    if q in s.b.bn {
      BinnedChunk(s.cs, s.b.bn, q);
      BinnedWide(m, s, q);
      ChunkMapped(m, s, q, q + FD);
      ChunkMapped(m, s, q, q + BK);
    }
  }

  lemma BinnedChunk(cs: Chunks, bn: map<int, int>, q: int)
    requires BinnedIs(cs, bn) && q in bn
    ensures q in cs && cs[q].kind.Binned? && cs[q].size == bn[q]
  {
  }

  lemma BinnedWide(m: Mem, s: State, q: int)
    requires HeapOk(m, s) && q in s.cs
    ensures s.cs[q].size >= MIN_CHUNK_SIZE || s.cs[q].kind.Top?
  {
    hide W, HeapOk;
    TagsAt(m, s, q);
  }

  /** A chunk that is none of those the heap uses for itself. */
  ghost predicate Plain(m: Mem, s: State, least: int, q: int) {
    HeapOk(m, s) && AtLeast(least, s.g) && Pending(s.cs) == {} && q in s.cs && !s.cs[q].kind.Top?
  }

  /** What the checks of a chunk find at it and behind it. */
  lemma PlainChunk(m: Mem, s: State, least: int, q: int)
    requires Plain(m, s, least, q)
    ensures ChunkChecks(m, s, least, q)
  {
    hide W, HeapOk, OnWalk, ChunkChecks, Pending, AtLeast;
    var k := WalkOf(m, s, q);
    WalkStep(m, s, least, k, q);
  }

  /** The walk that comes past a chunk. */
  lemma WalkOf(m: Mem, s: State, q: int) returns (k: int)
    requires HeapOk(m, s) && Pending(s.cs) == {} && q in s.cs && !s.cs[q].kind.Top?
    ensures OnWalk(s, k, q) && q != WalkEnd(s, k)
  {
    hide W, HeapOk, ShapeOk, Pending;
    ShapeOf(m, s);
    OneChunk(s, q);
    OrderHas(s, s.cs[q].home);
    k :| 0 <= k < |s.order| && s.order[k] == s.cs[q].home;
    if k == 0 {
      TopPlace(s);
      TopNotAt(s, q);
      BeforeTop(s, q);
    }
  }

  lemma OrderHas(s: State, h: nat)
    requires ShapeOk(s) && h in s.g
    ensures exists k :: 0 <= k < |s.order| && s.order[k] == h
  {
    hide Tiling, Coalesced, BinnedIs, DvOk, TopOk;
  }

  /** do_check_any_chunk. */
  predicate AnyChunk(p: int, head: int, least: int) {
    ((p + 16) % 8 == 0 || head == FENCEPOST_HEAD) && p >= least
  }

  /** is_mmapped. */
  method IsMmapped(m: Mem, p: int) returns (yes: bool)
    requires p + HEAD in m && (PInuse(W(m, p + HEAD)) || p in m)
    ensures yes <==> !PInuse(W(m, p + HEAD)) && W(m, p) % 2 == 1
  {
    hide W;
    yes := false;
    if !PInuse(Get(m, p + HEAD)) {
      yes := Get(m, p) % 2 == 1;
    }
  }

  /** do_check_inuse_chunk; no chunk is mapped directly. */
  method CheckInuseChunk(h: Heap, p: int) returns (ok: bool)
    requires h.Valid() && p in h.s.cs && InUse(h.s.cs[p].kind)
    ensures ok
  {
    hide W, HeapOk, AtLeast, AliasOk, Footprint, Pending, CInuse, PInuse, ChunkSize, Recognized, FreeBehind;
    PlainChunk(h.mem, h.s, h.leastAddr, p);
    RecognizedTags(h.mem, h.s, p);
    var head := Get(h.mem, p + HEAD);
    var next := p + ChunkSize(head);
    ok := AnyChunk(p, head, h.leastAddr) && CInuse(head) && PInuse(Get(h.mem, next + HEAD));
    if !PInuse(head) {
      BehindReads(h.mem, h.s, p);
      BehindEven(h.mem, h.s, p);
      var prev := p - Get(h.mem, p);
      ok := ok && prev + ChunkSize(Get(h.mem, prev + HEAD)) == p;
    }
    var direct := IsMmapped(h.mem, p);
    ok := ok && !direct;
  }

  /** do_check_free_chunk. */
  method CheckFreeChunk(h: Heap, p: int) returns (ok: bool)
    requires h.Valid() && p in h.s.cs && !InUse(h.s.cs[p].kind) && !h.s.cs[p].kind.Top?
    ensures ok
  {
    hide W, HeapOk, AtLeast, AliasOk, Footprint, Pending, CInuse, PInuse, ChunkSize, Recognized, FreeBehind;
    PlainChunk(h.mem, h.s, h.leastAddr, p);
    RecognizedTags(h.mem, h.s, p);
    SizeOk(h.mem, h.s, p);
    BinnedWide(h.mem, h.s, p);
    var head := Get(h.mem, p + HEAD);
    var sz := ChunkSize(head);
    var next := p + sz;
    var direct := IsMmapped(h.mem, p);
    ok := AnyChunk(p, head, h.leastAddr) && !CInuse(head) && !PInuse(Get(h.mem, next + HEAD)) && !direct;
    if p != h.dv && p != h.top {
      if sz >= MIN_CHUNK_SIZE {
        FreeIsBinned(h.mem, h.s, p);
        LinksMapped(h.mem, h.s, p);
        ok := ok && sz % 8 == 0 && (p + 16) % 8 == 0 && Get(h.mem, next) == sz && PInuse(head)
          && (next == h.top || CInuse(Get(h.mem, next + HEAD)))
          && Get(h.mem, Get(h.mem, p + FD) + BK) == p && Get(h.mem, Get(h.mem, p + BK) + FD) == p;
      } else {
        ok := ok && sz == 8;
      }
    }
  }

  /** bin_find on a chunk of the heap. */
  method FindInBins(h: Heap, p: int) returns (found: bool)
    requires h.Valid() && p in h.s.cs
    ensures found <==> p in h.s.b.bn
  {
    hide W, HeapOk, AtLeast, AliasOk, Footprint, Pending, ChunkSize, BinsOk, Readable, BinnedIs;
    BinsHere(h.mem, h.s);
    NotFresh(h.s, p);
    HeadAt(h.mem, h.s, p);
    SizeFacts(h.mem, h.s, p);
    ChunkMapped(h.mem, h.s, p, p);
    found := BinFind(h.mem, h.smallmap, h.treemap, p, h.s.b);
  }

  /** The loop of traverse_and_check over one segment. */
  method TraverseSegment(h: Heap, sp: int, ghost k: int) returns (sum: int, ok: bool)
    requires h.Valid() && 0 <= k < |h.s.order| && h.s.order[k] in h.s.g && sp == h.s.g[h.s.order[k]].rec
    ensures ok && sum == WalkEnd(h.s, k) - h.s.g[h.s.order[k]].base
  {
    hide W, HeapOk, AtLeast, AliasOk, Footprint, Pending, Recognized, CInuse, PInuse, ChunkSize, OnWalk, FreeBehind,
      Trail;
    ghost var s := h.s;
    RecordReadable(h.mem, s, k);
    WalkStart(h.mem, s, k);
    sum := 0;
    var base := Get(h.mem, sp + SEG_BASE);
    var size := Get(h.mem, sp + SEG_SIZE);
    var q := base;
    var lastq := 0;
    FirstPinned(h.mem, s, k);
    ok := PInuse(Get(h.mem, q + HEAD));
    WalkTest(h.mem, s, k, q);
    HoldsIs(s.g[s.order[k]], q);
    NoTrail(h.mem, s, q);
    while base <= q < base + size && q != h.top && Get(h.mem, q + HEAD) != FENCEPOST_HEAD
      invariant ok && OnWalk(s, k, q) && q + HEAD in h.mem && base <= q < base + size && sum == q - base
      invariant q == WalkEnd(s, k) <==> q == s.top || W(h.mem, q + HEAD) == FENCEPOST_HEAD
      invariant Trail(h.mem, s, lastq, q)
      decreases WalkEnd(s, k) - q
    {
      WalkStep(h.mem, s, h.leastAddr, k, q);
      RecognizedTags(h.mem, s, q);
      var chunkOk := CheckChunk(h, lastq, q);
      ok := ok && chunkOk;
      var qsize := ChunkSize(Get(h.mem, q + HEAD));
      sum := sum + qsize;
      TrailOn(h.mem, s, k, q);
      lastq := q;
      q := q + qsize;
      WalkTest(h.mem, s, k, q);
      HoldsIs(s.g[s.order[k]], q);
    }
  }

  lemma NoTrail(m: Mem, s: State, q: int)
    ensures Trail(m, s, 0, q)
  {
  }

  /** The body of that loop: a chunk in use is in no bin, and a free one is, or is the designated victim, and does not
      follow another free one. */
  method CheckChunk(h: Heap, lastq: int, q: int) returns (ok: bool)
    requires h.Valid() && q in h.s.cs && !h.s.cs[q].kind.Top? && Recognized(h.mem, h.s, q)
    requires Trail(h.mem, h.s, lastq, q)
    ensures ok
  {
    hide W, HeapOk, AtLeast, AliasOk, Footprint, Pending, Recognized, CInuse, PInuse, ChunkSize;
    ghost var s := h.s;
    RecognizedTags(h.mem, s, q);
    ok := true;
    var found := FindInBins(h, q);
    if CInuse(Get(h.mem, q + HEAD)) {
      NotBinned(h.mem, s, q);
      ok := ok && !found;
      var rest := CheckInuseChunk(h, q);
      ok := ok && rest;
    } else {
      FreeIsBinned(h.mem, s, q);
      FreePinned(h.mem, s, q);
      ok := ok && (q == h.dv || found);
      ok := ok && (lastq == 0 || CInuse(Get(h.mem, lastq + HEAD)));
      var rest := CheckFreeChunk(h, q);
      ok := ok && rest;
    }
  }

  lemma FreePinned(m: Mem, s: State, q: int)
    requires HeapOk(m, s) && q in s.cs && !InUse(s.cs[q].kind)
    ensures s.cs[q].pin
  {
    hide W, Tiling, TagsOk, FencesOk, BinsOk, SegList, MappedOk, BinnedIs, DvOk, TopOk, RecordPlace;
  }

  lemma FirstPinned(m: Mem, s: State, k: int)
    requires HeapOk(m, s) && Pending(s.cs) == {} && 0 <= k < |s.order|
    ensures s.order[k] in s.g
    ensures var q := s.g[s.order[k]].base; q + HEAD in m && PInuse(W(m, q + HEAD))
  {
    hide W, HeapOk, ShapeOk, PInuse;
    WalkStart(m, s, k);
    NotFresh(s, s.g[s.order[k]].base);
    HeadAt(m, s, s.g[s.order[k]].base);
  }

  lemma NotBinned(m: Mem, s: State, q: int)
    requires HeapOk(m, s) && q in s.cs && InUse(s.cs[q].kind)
    ensures q !in s.b.bn
  {
    hide W, Tiling, TagsOk, FencesOk, BinsOk, SegList, MappedOk, Coalesced, DvOk, TopOk, RecordPlace;
  }

  lemma FreeIsBinned(m: Mem, s: State, q: int)
    requires HeapOk(m, s) && q in s.cs && !InUse(s.cs[q].kind) && Recognized(m, s, q) && !s.cs[q].kind.Top?
    ensures q == s.dv || q in s.b.bn
  {
    hide W, Tiling, TagsOk, FencesOk, BinsOk, SegList, MappedOk, Coalesced, DvOk, TopOk, RecordPlace;
  }

  lemma SizeOk(m: Mem, s: State, q: int)
    requires HeapOk(m, s) && q in s.cs
    ensures s.cs[q].size % 8 == 0
  {
    hide W, HeapOk, ShapeOk;
    ShapeOf(m, s);
    OneChunk(s, q);
  }

  lemma SizeFacts(m: Mem, s: State, q: int)
    requires HeapOk(m, s) && q in s.cs
    ensures s.cs[q].size % 8 == 0 && 0 < s.cs[q].size < TWO64
  {
    hide W, HeapOk, ShapeOk;
    ShapeOf(m, s);
    OneChunk(s, q);
    ChunkMapped(m, s, q, q);
  }

  lemma BehindEven(m: Mem, s: State, q: int)
    requires HeapOk(m, s) && FreeBehind(m, s, q)
    ensures W(m, q) % 2 == 0
  {
    hide W, HeapOk, ChunkSize;
    SizeFacts(m, s, q - W(m, q));
    EvenSize(W(m, q));
  }

  lemma BehindReads(m: Mem, s: State, q: int)
    requires FreeBehind(m, s, q)
    ensures q in m && q - W(m, q) + HEAD in m && ChunkSize(W(m, q - W(m, q) + HEAD)) == W(m, q)
  {
  }

  lemma WalkedFits(m: Mem, s: State, k: int)
    requires HeapOk(m, s) && 0 <= k <= |s.order|
    ensures forall j :: 0 <= j < |s.order| ==> s.order[j] in s.g
    ensures k == 0 ==> Walked(s, k) == 0
    ensures k >= 1 ==> Walked(s, k) + s.topsize + TOP_FOOT_SIZE <= Footprint(s.g, s.order[..k])
    decreases k
  {
    hide W, HeapOk, ShapeOk;
    ShapeOf(m, s);
    OrderIn(s);
    if k > 0 {
      WalkedFits(m, s, k - 1);
      FootprintStep(s.g, s.order, k - 1);
      WordsOfSegment(s, s.order[k - 1]);
      if k == 1 {
        TopPlace(s);
        OneChunkBase(s, s.top);
        assert s.order[..0] == [];
      }
    }
  }

  lemma {:induction false} FootprintStep(g: Segs, order: seq<nat>, k: int)
    requires 0 <= k < |order| && order[k] in g
    ensures Footprint(g, order[..k + 1]) == Footprint(g, order[..k]) + g[order[k]].size
  {
    FootprintWithout(g, order[..k + 1], k);
    assert Skip(order[..k + 1], k) == order[..k];
  }

  /** traverse_and_check: the chunks and top add up to no more than the footprint. */
  method TraverseAndCheck(h: Heap) returns (sum: int, ok: bool)
    requires h.Valid()
    ensures forall j :: 0 <= j < |h.s.order| ==> h.s.order[j] in h.s.g
    ensures sum == if h.s.order == [] then 0 else h.topsize + TOP_FOOT_SIZE + Walked(h.s, |h.s.order|)
    ensures ok && sum <= h.footprint <= h.maxFootprint
  {
    hide W, HeapOk, AtLeast, AliasOk, Footprint, Pending, WalkEnd;
    ghost var s := h.s;
    sum, ok := 0, true;
    WalkedFits(h.mem, s, |s.order|);
    assert s.order[..|s.order|] == s.order;
    TopPositive(h.mem, s);
    if h.top != 0 {
      sum := sum + h.topsize + TOP_FOOT_SIZE;
      var sp := GM_SEG;
      ghost var k := 0;
      RecordReadable(h.mem, s, 0);
      while sp != 0
        invariant ok && 0 <= k <= |s.order|
        invariant (k < |s.order| ==> sp == s.g[s.order[k]].rec && sp != 0) && (k == |s.order| ==> sp == 0)
        invariant sum == h.topsize + TOP_FOOT_SIZE + Walked(s, k)
        decreases |s.order| - k
      {
        RecordReadable(h.mem, s, k);
        var part, partOk := TraverseSegment(h, sp, k);
        sum, ok := sum + part, ok && partOk;
        sp := Get(h.mem, sp + SEG_NEXT);
        k := k + 1;
        if k < |s.order| {
          RecordReadable(h.mem, s, k);
        }
      }
    } else {
      NoFootprint(s);
    }
  }
}
