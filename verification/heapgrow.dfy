/** Regions of memory arriving from the system. */
module HeapGrow {
  import opened Bins
  import opened HeapKept
  import opened HeapMoves
  import opened HeapState
  import opened HeapSpace
  import opened HeapSteps
  import opened HeapTags
  import opened SegAdd
  import opened SegDrop
  import opened SegPrepend
  import opened SegTop
  import opened Tiles
  import opened Words

  /** What the mapped words hold has not changed. */
  ghost predicate Extends(m: Mem, m': Mem) {
    forall a {:trigger W(m', a)} :: a in m ==> a in m' && W(m', a) == W(m, a)
  }

  lemma SameExtends(m: Mem)
    ensures Extends(m, m)
  {
  }

  lemma ExtendsWord(m: Mem, m': Mem, a: int)
    requires Extends(m, m') && a in m
    ensures a in m' && W(m', a) == W(m, a)
  {
  }

  lemma TagsExtend(m: Mem, m': Mem, s: State)
    requires HeapOk(m, s) && Extends(m, m')
    ensures TagsOk(m', s.cs)
  {
    hide W, Extends, ShapeOk, FencesOk, BinsOk, SegList, MappedOk, MkHead;
    forall q | q in s.cs ensures HeadOk(m', q, s.cs[q]) && FootOk(m', q, s.cs[q]) {
      TagsAt(m, s, q);
      ChunkMapped(m, s, q, q + HEAD);
      ChunkMapped(m, s, q, q + s.cs[q].size);
      ExtendsWord(m, m', q + HEAD);
      ExtendsWord(m, m', q + s.cs[q].size);
    }
  }

  lemma SegMapped(m: Mem, s: State, h: nat, a: int)
    requires HeapOk(m, s) && h in s.g && s.g[h].base <= a < s.g[h].base + s.g[h].size
    ensures a in m
  {
    hide W, ShapeOk, TagsOk, FencesOk, BinsOk, SegList;
  }

  lemma StaticMapped(m: Mem, s: State, a: int)
    requires HeapOk(m, s) && GM <= a < GM_END
    ensures a in m
  {
    hide W, ShapeOk, TagsOk, FencesOk, BinsOk, SegList;
  }

  lemma FencesExtend(m: Mem, m': Mem, s: State)
    requires HeapOk(m, s) && Extends(m, m')
    ensures FencesOk(m', s.g)
  {
    hide W, Extends, ShapeOk, TagsOk, BinsOk, SegList, MappedOk;
    ShapeOf(m, s);
    forall h | h in s.g ensures FenceOk(m', s.g[h]) {
      assert FenceOk(m, s.g[h]);
      WordsOfSegment(s, h);
      SegMapped(m, s, h, s.g[h].limit + HEAD);
      ExtendsWord(m, m', s.g[h].limit + HEAD);
    }
  }

  lemma BinsExtend(m: Mem, m': Mem, s: State)
    requires HeapOk(m, s) && Extends(m, m')
    ensures BinsOk(m', s.b)
  {
    hide W, Tiling, DvOk, RecordPlace, Coalesced, TopOk, TagsOk, BinsOk, SegList, MappedOk, FencesOk, Extends;
    forall a | SMALLBINS <= a < GM_SEG ensures W(m', a) == W(m, a) {
      StaticMapped(m, s, a);
      ExtendsWord(m, m', a);
    }
    forall p, a | p in s.b.bn && p + FD <= a < p + s.b.bn[p] ensures W(m', a) == W(m, a) {
      ChunkMapped(m, s, p, a);
      ExtendsWord(m, m', a);
    }
    BinsFrame(m, m', s.b);
  }

  lemma RecordExtends(m: Mem, m': Mem, s: State, k: int)
    requires HeapOk(m, s) && Extends(m, m') && 0 <= k < |s.order| && s.order[k] in s.g
    requires forall j :: 0 <= j < |s.order| ==> s.order[j] in s.g
    ensures RecordWords(m', s.g[s.order[k]], NextRec(s.g, s.order, k))
  {
    hide W, Extends, ShapeOk, TagsOk, BinsOk, FencesOk, MappedOk;
    ShapeOf(m, s);
    assert RecordWords(m, s.g[s.order[k]], NextRec(s.g, s.order, k));
    var r := s.g[s.order[k]].rec;
    RecordHome(s, s.order[k]);
    forall a | r <= a < r + 32 ensures W(m', a) == W(m, a) {
      if r == GM_SEG {
        StaticMapped(m, s, a);
      } else {
        SegMapped(m, s, s.order[k], a);
      }
      ExtendsWord(m, m', a);
    }
    assert r <= r + SEG_BASE < r + 32 && r <= r + SEG_SIZE < r + 32 && r <= r + SEG_NEXT < r + 32 &&
      r <= r + SEG_EXEC < r + 32;
  }

  lemma ListExtends(m: Mem, m': Mem, s: State)
    requires HeapOk(m, s) && Extends(m, m')
    ensures (forall j :: 0 <= j < |s.order| ==> s.order[j] in s.g) && SegList(m', s.g, s.order)
  {
    hide W, Extends, ShapeOk, TagsOk, BinsOk, FencesOk, RecordWords;
    ShapeOf(m, s);
    OrderIn(s);
    forall k | 0 <= k < |s.order| ensures RecordWords(m', s.g[s.order[k]], NextRec(s.g, s.order, k)) {
      RecordExtends(m, m', s, k);
    }
    if s.order == [] {
      StaticSame(m, m', s);
    }
  }

  lemma StaticSame(m: Mem, m': Mem, s: State)
    requires HeapOk(m, s) && Extends(m, m')
    ensures W(m', GM_SEG + SEG_BASE) == W(m, GM_SEG + SEG_BASE) && W(m', GM_SEG + SEG_SIZE) == W(m, GM_SEG + SEG_SIZE)
    ensures W(m', GM_SEG + SEG_NEXT) == W(m, GM_SEG + SEG_NEXT)
  {
    hide W, Extends, HeapOk;
    StaticMapped(m, s, GM_SEG + SEG_BASE);
    StaticMapped(m, s, GM_SEG + SEG_SIZE);
    StaticMapped(m, s, GM_SEG + SEG_NEXT);
    ExtendsWord(m, m', GM_SEG + SEG_BASE);
    ExtendsWord(m, m', GM_SEG + SEG_SIZE);
    ExtendsWord(m, m', GM_SEG + SEG_NEXT);
  }

  /** More memory does not disturb the heap. */
  lemma HeapExtends(m: Mem, m': Mem, s: State)
    requires HeapOk(m, s) && Extends(m, m')
    ensures Unnoticed(m, s, m', s)
  {
    hide W, ShapeOk, Extends, TagsOk, FencesOk, BinsOk, SegList, MappedOk;
    ShapeOf(m, s);
    TagsExtend(m, m', s);
    FencesExtend(m, m', s);
    BinsExtend(m, m', s);
    ListExtends(m, m', s);
    assert MappedOk(m', s.g) by { MapsExtend(m, m', s); }
    UsersAreIn(s.cs);
    forall q, a | q in Users(s.cs) && q + 16 <= a < q + Users(s.cs)[q] + 8 ensures W(m', a) == W(m, a) {
      ChunkMapped(m, s, q, a);
      ExtendsWord(m, m', a);
    }
  }

  lemma MapsExtend(m: Mem, m': Mem, s: State)
    requires HeapOk(m, s) && Extends(m, m')
    ensures MappedOk(m', s.g)
  {
    hide W, ShapeOk, Extends, TagsOk, FencesOk, BinsOk, SegList, MappedOk;
    forall a | GM <= a < GM_END ensures a in m' {
      StaticMapped(m, s, a);
      ExtendsWord(m, m', a);
    }
    forall h, a | h in s.g && s.g[h].base <= a < s.g[h].base + s.g[h].size ensures a in m' {
      SegMapped(m, s, h, a);
      ExtendsWord(m, m', a);
    }
    MapsFrom(m', s.g);
  }

  lemma MapsFrom(m: Mem, g: Segs)
    requires forall a :: GM <= a < GM_END ==> a in m
    requires forall h, a :: h in g && g[h].base <= a < g[h].base + g[h].size ==> a in m
    ensures MappedOk(m, g)
  {
  }

  /** Pages that the system has handed over and that belong to no segment yet. */
  ghost predicate Gained(m: Mem, g: Segs, base: int, size: int) {
    && base % PAGE == 0 && size % PAGE == 0 && size > 0 && GM_END <= base && base + size < TWO64
    && (forall a :: base <= a < base + size ==> a in m)
    && forall k :: k in g ==> g[k].base + g[k].size <= base || base + size <= g[k].base
  }

  /** Memory with a region of given contents added. */
  function WithRegion(m: Mem, base: int, size: int, contents: Mem): Mem {
    m + map a | base <= a < base + size :: W(contents, a)
  }

  lemma RegionExtends(m: Mem, base: int, size: int, contents: Mem)
    requires forall a :: base <= a < base + size ==> a !in m
    ensures Extends(m, WithRegion(m, base, size, contents))
    ensures forall a :: base <= a < base + size ==> a in WithRegion(m, base, size, contents)
  {
  }

  /** A region that was not mapped overlaps no segment. */
  lemma GainedApart(m: Mem, m': Mem, s: State, base: int, size: int)
    requires HeapOk(m, s) && base % PAGE == 0 && size % PAGE == 0 && size > 0 && GM_END <= base && base + size < TWO64
    requires forall a :: base <= a < base + size ==> a !in m && a in m'
    ensures Gained(m', s.g, base, size)
  {
    hide W, HeapOk;
    ShapeOf(m, s);
    forall k | k in s.g ensures s.g[k].base + s.g[k].size <= base || base + size <= s.g[k].base {
      WordsOfSegment(s, k);
      if s.g[k].base + s.g[k].size > base && base + size > s.g[k].base {
        SegMapped(m, s, k, if s.g[k].base > base then s.g[k].base else base);
      }
    }
  }

  lemma PagesAligned(size: int)
    requires size % PAGE == 0 && size > 0
    ensures size % 8 == 0 && size >= PAGE
  {
  }

  /** Memory before a segment, joined to it, keeps the other segments apart. */
  lemma GainedPrepends(m: Mem, s: State, h: nat, base: int, size: int)
    requires HeapOk(m, s) && Gained(m, s.g, base, size) && h in s.g && s.g[h].base == base + size
    ensures CanPrepend(s, h, size)
  {
    hide W, HeapOk, ShapeOk, SegOk;
    ShapeOf(m, s);
    PagesAligned(size);
    SegsOf(s);
    forall k | k in s.g ensures s.g[k].size > 0 {
      WordsOfSegment(s, k);
    }
  }

  /** Memory behind the segment of top, joined to it, keeps the other segments apart. */
  lemma GainedResizes(m: Mem, s: State, base: int, size: int)
    requires HeapOk(m, s) && Gained(m, s.g, base, size) && s.order != [] && s.order[0] in s.g
    requires s.g[s.order[0]].base + s.g[s.order[0]].size == base
    ensures CanResize(s, size)
  {
    hide W, HeapOk, ShapeOk, SegOk;
    ShapeOf(m, s);
    PagesAligned(size);
    TopPlace(s);
    SegsOf(s);
    forall k | k in s.g ensures s.g[k].size > 0 {
      WordsOfSegment(s, k);
    }
  }

  // Walking the list of segments

  /** The words of a record can be read, and lead to the next record. */
  lemma RecordReadable(m: Mem, s: State, k: int)
    requires HeapOk(m, s) && 0 <= k < |s.order|
    ensures s.order[k] in s.g
    ensures var sg := s.g[s.order[k]];
      && RecordWords(m, sg, W(m, sg.rec + SEG_NEXT)) && sg.rec >= GM_SEG && (k == 0 ==> sg.rec == GM_SEG)
      && (forall a :: sg.rec <= a < sg.rec + 32 ==> a in m)
      && sg.base > 0 && sg.size > 0 && sg.base + sg.size < TWO64
    ensures W(m, s.g[s.order[k]].rec + SEG_NEXT) ==
      if k + 1 < |s.order| && s.order[k + 1] in s.g then s.g[s.order[k + 1]].rec else 0
    ensures k + 1 < |s.order| ==> s.order[k + 1] in s.g
  {
    hide W, HeapOk, ShapeOk, RecordWords;
    ShapeOf(m, s);
    NextAfter(m, s, k);
    var h := s.order[k];
    RecordHome(s, h);
    OrderIs(s);
    forall a | s.g[h].rec <= a < s.g[h].rec + 32 ensures a in m {
      if s.g[h].rec == GM_SEG {
        StaticMapped(m, s, a);
      } else {
        SegMapped(m, s, h, a);
      }
    }
    WordsOfSegment(s, h);
    assert SegOk(s.g[h]) by { SegsOf(s); }
  }

  /** Without segments, the embedded record is empty and ends the list. */
  lemma EmptyRecord(m: Mem, s: State)
    requires HeapOk(m, s) && s.order == []
    ensures forall a :: GM_SEG <= a < GM_END ==> a in m
    ensures W(m, GM_SEG + SEG_BASE) == 0 && W(m, GM_SEG + SEG_SIZE) == 0 && W(m, GM_SEG + SEG_NEXT) == 0
  {
    hide W, ShapeOk, TagsOk, FencesOk, BinsOk;
  }

  /** The segment that holds top is the first. */
  lemma HoldsTop(m: Mem, s: State, k: int)
    requires HeapOk(m, s) && 0 <= k < |s.order| && s.order[k] in s.g
    ensures s.g[s.order[k]].base <= s.top < s.g[s.order[k]].base + s.g[s.order[k]].size <==> k == 0
  {
    hide W, HeapOk, ShapeOk;
    ShapeOf(m, s);
    TopPlace(s);
    OneChunkBase(s, s.top);
    OrderIs(s);
    SegsOf(s);
    WordsOfSegment(s, s.order[0]);
  }

  /** A chunk's address is held by its own segment only. */
  lemma HeldBy(m: Mem, s: State, p: int, h: nat)
    requires HeapOk(m, s) && p in s.cs && h in s.g
    ensures s.g[h].base <= p < s.g[h].base + s.g[h].size <==> h == s.cs[p].home
    ensures s.g[h].base <= p + 16 < s.g[h].base + s.g[h].size <==> h == s.cs[p].home
    ensures s.cs[p].home in s.g
  {
    hide W, HeapOk, ShapeOk, SegOk;
    ShapeOf(m, s);
    OneChunk(s, p);
    OneChunkBase(s, p);
    SegsOf(s);
    WordsOfSegment(s, s.cs[p].home);
  }

  /** There is always an unused name for a segment. */
  lemma UnusedHome(used: set<nat>) returns (n: nat)
    ensures forall k :: k in used ==> k < n
    decreases |used|
  {
    if used == {} {
      n := 0;
    } else {
      var x :| x in used;
      var rest := used - {x};
      var r := UnusedHome(rest);
      n := if x < r then r else x + 1;
      assert forall k :: k in used ==> k == x || k in rest;
    }
  }

  // What the methods write is what the changes of state ask for

  /** init_top: the head of top and the size of the overhead behind it.  Top is aligned, so no offset is needed. */
  function InitTopWords(m: Mem, p: int, size: int): (r: Mem)
    requires p + HEAD in m && p + size + HEAD in m
    ensures r.Keys == m.Keys
  {
    Put(Put(m, p + HEAD, size + PINUSE_BIT), p + size + HEAD, TOP_FOOT_SIZE)
  }

  lemma AppendWritten(m0: Mem, m: Mem, s: State, base: int, size: int)
    requires HeapOk(m0, s) && Gained(m0, s.g, base, size) && s.order != [] && s.order[0] in s.g
    requires s.g[s.order[0]].base + s.g[s.order[0]].size == base
    requires GM_SEG + SEG_SIZE in m0 && s.top + HEAD in m0 && s.top + s.topsize + size + HEAD in m0
    requires m == InitTopWords(Put(m0, GM_SEG + SEG_SIZE, s.g[s.order[0]].size + size), s.top, s.topsize + size)
    ensures CanResize(s, size) && ResizeWrites(m0, m, s, size) && MappedOk(m, Resized(s, size).g)
  {
    hide W, HeapOk, ShapeOk, CanResize, SegOk, MappedOk;
    ShapeOf(m0, s);
    TopPlace(s);
    OneChunk(s, s.top);
    OneChunkBase(s, s.top);
    WordsOfSegment(s, s.order[0]);
    PagesAligned(size);
    GainedResizes(m0, s, base, size);
    ResizeHasTop(s, size);
    forall a | GM <= a < GM_END ensures a in m {
      StaticMapped(m0, s, a);
    }
    var t := Resized(s, size);
    forall h, a | h in t.g && t.g[h].base <= a < t.g[h].base + t.g[h].size ensures a in m {
      if h != s.order[0] || a < base {
        SegMapped(m0, s, h, a);
      }
    }
    MapsFrom(m, t.g);
  }

  lemma ResizeHasTop(s: State, delta: int)
    requires CanResize(s, delta)
    ensures HasTop(s)
  {
  }

  lemma AppendGrounds(m: Mem, s: State, alias: map<int, int>, least: int, base: int, size: int)
    requires HasTop(s) && Gained(m, s.g, base, size) && s.g[s.order[0]].base + s.g[s.order[0]].size == base
    requires AtLeast(least, s.g) && AliasOk(alias, s.g) && AliasIs(alias, base, size, s.g[s.order[0]].exec)
    ensures AtLeast(least, Resized(s, size).g) && AliasOk(alias, Resized(s, size).g)
    ensures Resized(s, size).topsize == s.topsize + size && Resized(s, size).top == s.top && Resized(s, size).b == s.b
    ensures Resized(s, size).dv == s.dv && Resized(s, size).dvsize == s.dvsize && Resized(s, size).order == s.order
  {
    hide W;
  }

  lemma PrependGrounds(m: Mem, s: State, alias: map<int, int>, least: int, k: int, base: int, size: int)
    requires 0 <= k < |s.order| && GainedBefore(m, s, s.order[k], base, size)
    requires AtLeast(least, s.g) && least <= base && AliasOk(alias, s.g)
    requires AliasIs(alias, base, size, s.g[s.order[k]].exec)
    ensures var t := Prepended(s, s.order[k], size);
      && AtLeast(least, t.g) && AliasOk(alias, t.g) && t.b == s.b && t.dv == s.dv && t.dvsize == s.dvsize
      && t.top == s.top && t.topsize == s.topsize && t.order == s.order
  {
    hide W;
  }

  lemma AppendMapped(m: Mem, s: State, base: int, size: int)
    requires HeapOk(m, s) && Gained(m, s.g, base, size) && s.order != [] && s.order[0] in s.g
    requires s.g[s.order[0]].base + s.g[s.order[0]].size == base
    ensures GM_SEG + SEG_SIZE in m && s.top + HEAD in m && s.top + s.topsize + size + HEAD in m
    ensures W(m, GM_SEG + SEG_SIZE) == s.g[s.order[0]].size
  {
    hide W, HeapOk, ShapeOk, SegOk;
    ShapeOf(m, s);
    TopPlace(s);
    RecordReadable(m, s, 0);
    OneChunk(s, s.top);
    OneChunkBase(s, s.top);
    WordsOfSegment(s, s.order[0]);
    PagesAligned(size);
    StaticMapped(m, s, GM_SEG + SEG_SIZE);
    SegMapped(m, s, s.order[0], s.top + HEAD);
    assert s.top + s.topsize + size + HEAD >= base && s.top + s.topsize + size + HEAD < base + size;
  }

  lemma StartMapped(m: Mem, s: State, base: int, size: int)
    requires HeapOk(m, s) && Gained(m, s.g, base, size) && s.order == []
    ensures forall a :: GM <= a < GM_END || base <= a < base + size ==> a in m
    ensures size >= PAGE && size % PAGE == 0 && base % PAGE == 0 && base >= GM_END && FreshPlace(s.g, 0, base, size)
  {
    hide W, HeapOk, ShapeOk;
    ShapeOf(m, s);
    NothingYet(s);
    PagesAligned(size);
    forall a | GM <= a < GM_END ensures a in m {
      StaticMapped(m, s, a);
    }
  }

  /** m->seg of the first segment; the list ends behind it already.  The offset is taken out of the region. */
  function FirstRecord(m: Mem, base: int, size: int, exec: int): (r: Mem)
    requires (forall a :: GM_SEG <= a < GM_END ==> a in m) && base + size - 8 in m
    ensures r.Keys == m.Keys
  {
    Put(Put(Put(Put(m, GM_SEG + SEG_BASE, base), GM_SEG + SEG_SIZE, size), GM_SEG + SEG_EXEC, exec), base + size - 8, 0)
  }

  lemma StartWritten(m0: Mem, m1: Mem, m2: Mem, m: Mem, s: State, base: int, size: int, exec: int)
    requires (forall a :: GM <= a < GM_END || base <= a < base + size ==> a in m0) && size >= PAGE && base >= GM_END
    requires m1 == FirstRecord(m0, base, size, exec) && m2.Keys == m1.Keys
    requires forall a {:trigger W(m2, a)} :: !(SMALLBINS <= a < TREEBINS) ==> W(m2, a) == W(m1, a)
    requires base + HEAD in m2 && base + (size - TOP_FOOT_SIZE) + HEAD in m2
    requires m == InitTopWords(m2, base, size - TOP_FOOT_SIZE)
    ensures StartWrites(m0, m, base, size, exec) && MappedOk(m, Started(s, 0, base, size, exec).g)
  {
    hide W, MappedOk, FirstRecord, InitTopWords;
    FirstRecordIs(m0, base, size, exec);
    InitTopIs(m2, base, size - TOP_FOOT_SIZE);
    MapsFrom(m, Started(s, 0, base, size, exec).g);
  }

  lemma FirstRecordIs(m: Mem, base: int, size: int, exec: int)
    requires (forall a :: GM_SEG <= a < GM_END ==> a in m) && base + size - 8 in m && base >= GM_END && size >= PAGE
    ensures var r := FirstRecord(m, base, size, exec);
      && W(r, GM_SEG + SEG_BASE) == base && W(r, GM_SEG + SEG_SIZE) == size && W(r, GM_SEG + SEG_EXEC) == exec
      && W(r, GM_SEG + SEG_NEXT) == W(m, GM_SEG + SEG_NEXT)
    ensures forall a {:trigger W(FirstRecord(m, base, size, exec), a)} ::
      !(GM_SEG <= a < GM_END) && a != base + size - 8 ==> W(FirstRecord(m, base, size, exec), a) == W(m, a)
  {
    hide W;
  }

  /** sp->base = tbase; sp->size += tsize. */
  function LowerRecord(m: Mem, sp: int, base: int, size: int): (r: Mem)
    requires sp + SEG_BASE in m && sp + SEG_SIZE in m
    ensures r.Keys == m.Keys
  {
    var m1 := Put(m, sp + SEG_BASE, base);
    Put(m1, sp + SEG_SIZE, Get(m1, sp + SEG_SIZE) + size)
  }

  /** Pages gained right before segment h. */
  ghost predicate GainedBefore(m: Mem, s: State, h: nat, base: int, size: int) {
    Gained(m, s.g, base, size) && h in s.g && s.g[h].base == base + size
  }

  lemma PrependWritten(m0: Mem, m: Mem, s: State, k: int, base: int, size: int, nb: int)
    requires HeapOk(m0, s) && 0 <= k < |s.order| && GainedBefore(m0, s, s.order[k], base, size)
    requires var r := s.g[s.order[k]].rec;
      && r + SEG_BASE in m0 && r + SEG_SIZE in m0 && base + HEAD in m0
      && m == SetInuseSize(LowerRecord(m0, r, base, size), base, nb)
    ensures var h := s.order[k];
      && CanPrepend(s, h, size) && PrependWrites(m0, m, s, h, size) && MappedOk(m, Prepended(s, h, size).g)
      && W(m, base + HEAD) == MkHead(nb, true, true)
  {
    hide W, HeapOk, ShapeOk, CanPrepend, SegOk, MappedOk;
    var h := s.order[k];
    ShapeOf(m0, s);
    RecordReadable(m0, s, k);
    RecordHome(s, h);
    WordsOfSegment(s, h);
    GainedPrepends(m0, s, h, base, size);
    PagesAligned(size);
    forall a | GM <= a < GM_END ensures a in m {
      StaticMapped(m0, s, a);
    }
    var t := Prepended(s, h, size);
    forall i, a | i in t.g && t.g[i].base <= a < t.g[i].base + t.g[i].size ensures a in m {
      if i != h || a >= base + size {
        SegMapped(m0, s, i, a);
      }
    }
    MapsFrom(m, t.g);
  }

  /** Bin operations do not touch the head of new memory. */
  lemma FreshHeadKept(m: Mem, m': Mem, s: State, p: int)
    requires HeapOk(m, s) && p in s.cs && InUse(s.cs[p].kind) && FreeWordsOnly(m, m', s.cs)
    ensures W(m', p + HEAD) == W(m, p + HEAD)
  {
    hide W, HeapOk, ShapeOk;
    ShapeOf(m, s);
    NoOverlapOf(s);
    OneChunk(s, p);
    OneChunkBase(s, p);
    WordsOfSegment(s, s.cs[p].home);
  }

  /** What the program sees of chunk n: whether it is top, the victim, in use, or else in a bin. */
  ghost predicate Recognized(m: Mem, s: State, n: int) {
    && n in s.cs && n + HEAD in m && n > 0
    && var h := W(m, n + HEAD);
    && CInuse(h) == InUse(s.cs[n].kind) && PInuse(h) == s.cs[n].pin && ChunkSize(h) == s.cs[n].size
    && (s.cs[n].kind.Top? <==> n == s.top) && (s.cs[n].kind.Dv? <==> n == s.dv)
    && (!InUse(s.cs[n].kind) && n != s.top && n != s.dv ==> s.cs[n].kind.Binned?)
  }

  lemma Recognize(m: Mem, s: State, n: int)
    requires HeapOk(m, s) && n in s.cs && n !in Pending(s.cs)
    ensures Recognized(m, s, n)
  {
    hide W, Tiling, Coalesced, BinnedIs, RecordPlace, TagsOk, FencesOk, BinsOk, SegList, MappedOk, MkHead, ChunkSize,
      CInuse, PInuse;
    HeadAt(m, s, n);
    TopNotAt(s, n);
  }

  lemma TopNotAt(s: State, n: int)
    requires ShapeOk(s) && n in s.cs
    ensures n > 0 && (s.cs[n].kind.Top? <==> n == s.top) && (s.cs[n].kind.Dv? <==> n == s.dv)
  {
    hide Tiling, Coalesced, BinnedIs, RecordPlace;
    DvPositive(s);
  }

  lemma AfterFresh(m: Mem, s: State, p: int)
    requires HeapOk(m, s) && p in s.cs && s.cs[p].kind.Fresh? && Pending(s.cs) == {p}
    ensures Follows(s.cs, p, p + s.cs[p].size) && Recognized(m, s, p + s.cs[p].size) && s.order != []
  {
    hide W, HeapOk, ShapeOk, Pending, Recognized;
    var n := p + s.cs[p].size;
    ShapeOf(m, s);
    NotLast(s, p);
    OneChunk(s, p);
    Recognize(m, s, n);
  }

  /** New memory at p joined to the front of a segment whose first chunk was next; the head of a block of nb bytes has
      been written. */
  ghost predicate NewFront(m: Mem, s: State, p: int, next: int, nb: int) {
    && p in s.cs && s.cs[p].kind.Fresh? && s.cs[p].pin && Pending(s.cs) == {p} && next == p + s.cs[p].size
    && nb % 8 == 0 && nb >= MIN_CHUNK_SIZE && s.cs[p].size - nb >= MIN_CHUNK_SIZE
    && W(m, p + HEAD) == MkHead(nb, true, true)
  }

  /** The rest of the new memory may be joined with what follows, up to hi. */
  ghost predicate CanJoin(m: Mem, s: State, p: int, hi: int, nb: int) {
    && Span(s, p, p, hi) && s.cs[p].kind.Fresh? && nb % 8 == 0 && MIN_CHUNK_SIZE <= nb && p + nb <= hi - MIN_CHUNK_SIZE
    && W(m, p + HEAD) == MkHead(nb, true, true)
  }

  lemma FrontReady(m: Mem, s: State, p: int, next: int, nb: int)
    requires HeapOk(m, s) && NewFront(m, s, p, next, nb)
    ensures Follows(s.cs, p, next) && Recognized(m, s, next) && p in s.cs && InUse(s.cs[p].kind) && s.order != []
  {
    hide W, HeapOk, Recognized;
    AfterFresh(m, s, p);
  }

  lemma FrontInUse(m: Mem, s: State, p: int, next: int, nb: int)
    requires HeapOk(m, s) && NewFront(m, s, p, next, nb) && next in s.cs && InUse(s.cs[next].kind)
    ensures CanJoin(m, s, p, next, nb) && !NextTop(s, p, next) && !(p <= s.dv < next)
    ensures forall q :: q in Pending(s.cs) ==> p <= q < next
  {
    hide W, HeapOk, ShapeOk;
    ShapeOf(m, s);
    TopNotAt(s, next);
    TopNotAt(s, p);
    VictimIs(s);
    OneChunk(s, p);
  }

  lemma FrontAfterUnlink(m0: Mem, s0: State, m: Mem, s: State, p: int, next: int, nb: int)
    requires HeapOk(m0, s0) && NewFront(m0, s0, p, next, nb) && next in s0.cs && s0.cs[next].kind.Binned?
    requires W(m, p + HEAD) == W(m0, p + HEAD)
    requires HeapOk(m, s) && s.cs == Rekind(s0.cs, next, Loose) && Pending(s.cs) == Pending(s0.cs) + {next}
    requires s.top == s0.top && s.dv == s0.dv
    ensures var hi := next + s0.cs[next].size; CanJoin(m, s, p, hi, nb) && !NextTop(s, p, hi) && !(p <= s.dv < hi)
    ensures forall q :: q in Pending(s.cs) ==> p <= q < next + s0.cs[next].size
  {
    hide W, HeapOk, ShapeOk;
    ShapeOf(m0, s0);
    TopNotAt(s0, next);
    TopNotAt(s0, p);
    VictimIs(s0);
    OneChunk(s0, p);
    OneChunk(s0, next);
  }

  lemma FrontMapped(m: Mem, s: State, p: int, q: int, hi: int)
    requires HeapOk(m, s) && Span(s, p, p, hi) && p <= q <= hi && !NextTop(s, p, hi)
    ensures q + HEAD in m && hi in m && hi + HEAD in m && p % 8 == 0 && p in s.cs && p < hi
  {
    hide W, HeapOk, ShapeOk, Span, NextTop;
    ShapeOf(m, s);
    SpanEnds(s, p, p, hi);
    OneChunk(s, hi);
    ChunkMapped(m, s, hi, hi);
    ChunkMapped(m, s, hi, hi + HEAD);
    OneChunkBase(s, p);
    WordsOfSegment(s, s.cs[p].home);
    SegMapped(m, s, s.cs[p].home, q + HEAD);
  }

  lemma VictimIs(s: State)
    requires ShapeOk(s)
    ensures s.dv == 0 || (s.dv in s.cs && s.cs[s.dv].kind.Dv?)
  {
    hide Tiling, Coalesced, BinnedIs, RecordPlace, TopOk;
  }

  lemma FrontPendingDone(s: State, t: State, p: int, q: int, next: int, hi: int)
    requires p <= next <= hi && p < q < hi
    requires forall x :: x in Pending(s.cs) ==> p <= x < hi
    requires forall x :: x in Pending(t.cs) <==> (x in Pending(s.cs) && (x < p || x >= hi)) || x == q
    ensures Pending(t.cs) == {q}
  {
    hide Pending;
    assert forall x :: x in Pending(t.cs) <==> x == q;
  }

  lemma FrontTop(m: Mem, s: State, p: int, next: int, nb: int)
    requires HeapOk(m, s) && NewFront(m, s, p, next, nb) && next == s.top && s.order != []
    ensures var hi := s.top + s.topsize; CanJoin(m, s, p, hi, nb) && NextTop(s, p, hi) && !(p <= s.dv < hi)
    ensures forall q :: q in Pending(s.cs) ==> p <= q < s.top + s.topsize
    ensures p % 8 == 0 && p + nb + HEAD in m && p + nb < s.top
  {
    hide W, HeapOk, ShapeOk;
    ShapeOf(m, s);
    TopPlace(s);
    TopNotAt(s, p);
    VictimIs(s);
    OneChunk(s, p);
    OneChunk(s, next);
    ChunkMapped(m, s, p, p + nb + HEAD);
  }

  lemma FrontVictim(m: Mem, s: State, p: int, next: int, nb: int)
    requires HeapOk(m, s) && NewFront(m, s, p, next, nb) && next == s.dv && next in s.cs && s.cs[next].kind.Dv?
    requires s.order != []
    ensures var hi := s.dv + s.dvsize;
      CanJoin(m, s, p, hi, nb) && !NextTop(s, p, hi) && !NextInUse(s, p, hi) && p <= s.dv < hi && s.top != s.dv
    ensures forall q :: q in Pending(s.cs) ==> p <= q < s.dv + s.dvsize
    ensures p % 8 == 0 && p + nb + HEAD in m && s.dv + s.dvsize in m && s.dv + s.dvsize + HEAD in m && p + nb < s.dv
  {
    hide W, HeapOk, ShapeOk;
    ShapeOf(m, s);
    TopNot(s, next);
    TopNotAt(s, next);
    OneChunk(s, p);
    OneChunk(s, next);
    FrontMapped(m, s, p, p + nb, s.dv + s.dvsize);
  }

  lemma FrontPendingNone(s: State, t: State, p: int, hi: int)
    requires forall x :: x in Pending(s.cs) ==> p <= x < hi
    requires forall x :: x in Pending(t.cs) <==> x in Pending(s.cs) && (x < p || x >= hi)
    ensures Pending(t.cs) == {}
  {
    hide Pending;
    assert forall x :: x !in Pending(t.cs);
  }

  // add_segment

  /** align_offset. */
  function AlignOffset(a: int): int {
    if a % 8 == 0 then 0 else (8 - a % 8) % 8
  }

  /** The place for the record that add_segment computes is the one that ends the old segment right. */
  lemma RecordPlaceComputed(m: Mem, s: State)
    requires HeapOk(m, s) && s.order != []
    ensures s.order[0] in s.g
    ensures var end := s.g[s.order[0]].base + s.g[s.order[0]].size;
      var rawsp := end - (SEGMENT_CHUNK + 32 + 7);
      var asp := rawsp + AlignOffset(rawsp + 16);
      && HasTop(s) && TopEnd(s, RecordAt(s))
      && (if asp < s.top + MIN_CHUNK_SIZE then s.top else asp) == RecordAt(s)
      && s.top + HEAD in m && (forall a :: RecordAt(s) <= a < end ==> a in m) && end % 8 == 0
  {
    hide W, HeapOk, ShapeOk, SegOk;
    ShapeOf(m, s);
    TopPlace(s);
    RecordFits(s);
    OneChunkBase(s, s.top);
    WordsOfSegment(s, s.order[0]);
    var end := s.g[s.order[0]].base + s.g[s.order[0]].size;
    EndAlignedOf(s, s.order[0]);
    forall a | s.top <= a < end ensures a in m {
      SegMapped(m, s, s.order[0], a);
    }
  }

  lemma EndAlignedOf(s: State, h: nat)
    requires ShapeOk(s) && h in s.g
    ensures (s.g[h].base + s.g[h].size) % 8 == 0
  {
    hide ShapeOk, SegOk;
    SegsOf(s);
    SegEndAligned(s.g[h]);
  }

  lemma SegEndAligned(sg: Seg)
    requires SegOk(sg)
    ensures (sg.base + sg.size) % 8 == 0
  {
  }

  /** *ss = m->seg. */
  function CopyRecord(m: Mem, ss: int): (r: Mem)
    requires forall a :: GM_SEG <= a < GM_END || ss <= a < ss + 32 ==> a in m
    ensures r.Keys == m.Keys
  {
    var m1 := Put(m, ss + SEG_BASE, Get(m, GM_SEG + SEG_BASE));
    var m2 := Put(m1, ss + SEG_SIZE, Get(m1, GM_SEG + SEG_SIZE));
    var m3 := Put(m2, ss + SEG_NEXT, Get(m2, GM_SEG + SEG_NEXT));
    Put(m3, ss + SEG_EXEC, Get(m3, GM_SEG + SEG_EXEC))
  }

  /** The new contents of m->seg, with the record at ss behind it; the offset is taken out of the region. */
  function NewRecord(m: Mem, base: int, size: int, exec: int, ss: int): (r: Mem)
    requires (forall a :: GM_SEG <= a < GM_END ==> a in m) && base + size - 8 in m
    ensures r.Keys == m.Keys
  {
    var m1 := Put(Put(m, GM_SEG + SEG_BASE, base), GM_SEG + SEG_SIZE, size);
    Put(Put(Put(m1, GM_SEG + SEG_EXEC, exec), base + size - 8, 0), GM_SEG + SEG_NEXT, ss)
  }

  /** Fenceposts have been written from p on, nowhere but below end. */
  ghost predicate FencesWritten(m: Mem, m': Mem, p: int, end: int) {
    && m'.Keys == m.Keys && W(m', p + HEAD) == FENCEPOST_HEAD
    && forall a {:trigger W(m', a)} :: !(p + HEAD <= a < end) ==> W(m', a) == W(m, a)
  }

  lemma InitTopIs(m: Mem, p: int, size: int)
    requires p + HEAD in m && p + size + HEAD in m && size > 0
    ensures var r := InitTopWords(m, p, size);
      W(r, p + HEAD) == size + PINUSE_BIT && W(r, p + size + HEAD) == TOP_FOOT_SIZE
    ensures forall a {:trigger W(InitTopWords(m, p, size), a)} ::
      a != p + HEAD && a != p + size + HEAD ==> W(InitTopWords(m, p, size), a) == W(m, a)
  {
    hide W;
  }

  /** The embedded record is copied whole. */
  lemma CopyIs(m: Mem, ss: int)
    requires (forall a :: GM_SEG <= a < GM_END || ss <= a < ss + 32 ==> a in m) && ss >= GM_END
    ensures var r := CopyRecord(m, ss);
      && W(r, ss + SEG_BASE) == W(m, GM_SEG + SEG_BASE) && W(r, ss + SEG_SIZE) == W(m, GM_SEG + SEG_SIZE)
      && W(r, ss + SEG_NEXT) == W(m, GM_SEG + SEG_NEXT) && W(r, ss + SEG_EXEC) == W(m, GM_SEG + SEG_EXEC)
    ensures forall a {:trigger W(CopyRecord(m, ss), a)} :: !(ss <= a < ss + 32) ==> W(CopyRecord(m, ss), a) == W(m, a)
  {
    hide W;
  }

  lemma NewRecordIs(m: Mem, base: int, size: int, exec: int, ss: int)
    requires (forall a :: GM_SEG <= a < GM_END ==> a in m) && base + size - 8 in m
    requires !(GM_SEG <= base + size - 8 < GM_END)
    ensures var r := NewRecord(m, base, size, exec, ss);
      W(r, GM_SEG + SEG_BASE) == base && W(r, GM_SEG + SEG_SIZE) == size && W(r, GM_SEG + SEG_EXEC) == exec &&
        W(r, GM_SEG + SEG_NEXT) == ss
    ensures forall a {:trigger W(NewRecord(m, base, size, exec, ss), a)} ::
      !(GM_SEG <= a < GM_END) && a != base + size - 8 ==> W(NewRecord(m, base, size, exec, ss), a) == W(m, a)
  {
    hide W;
  }

  /** The stores of add_segment up to the fenceposts: top, the head of the record's chunk, the two records. */
  ghost predicate EarlyStores(m0: Mem, m: Mem, csp: int, base: int, size: int, exec: int) {
    && m.Keys == m0.Keys
    && W(m, base + HEAD) == size - TOP_FOOT_SIZE + PINUSE_BIT
    && W(m, base + size - TOP_FOOT_SIZE + HEAD) == TOP_FOOT_SIZE
    && W(m, csp + HEAD) == SEGMENT_CHUNK + PINUSE_BIT + CINUSE_BIT
    && W(m, csp + 16 + SEG_BASE) == W(m0, GM_SEG + SEG_BASE) && W(m, csp + 16 + SEG_SIZE) == W(m0, GM_SEG + SEG_SIZE)
    && W(m, csp + 16 + SEG_NEXT) == W(m0, GM_SEG + SEG_NEXT) && W(m, csp + 16 + SEG_EXEC) == W(m0, GM_SEG + SEG_EXEC)
    && W(m, GM_SEG + SEG_BASE) == base && W(m, GM_SEG + SEG_SIZE) == size
    && W(m, GM_SEG + SEG_NEXT) == csp + 16 && W(m, GM_SEG + SEG_EXEC) == exec
    && forall a {:trigger W(m, a)} ::
      !(csp + HEAD <= a < csp + 48) && !(GM_SEG <= a < GM_END) && !(base <= a < base + size) ==> W(m, a) == W(m0, a)
  }

  lemma EarlyKeys(m0: Mem, m: Mem, csp: int, base: int, size: int, exec: int)
    requires EarlyStores(m0, m, csp, base, size, exec)
    ensures m.Keys == m0.Keys
  {
    hide W;
  }

  lemma EarlyDone(m0: Mem, m1: Mem, m2: Mem, m3: Mem, m: Mem, csp: int, base: int, size: int, exec: int)
    requires csp >= GM_END && base >= GM_END && size >= PAGE && (csp + 72 <= base || base + size <= csp) && csp % 8 == 0
    requires base % 8 == 0 && size % 8 == 0
    requires forall a :: GM_SEG <= a < GM_END || csp <= a < csp + 72 ==> a in m0
    requires base + HEAD in m0 && base + (size - TOP_FOOT_SIZE) + HEAD in m0 && base + size - 8 in m0
    requires m1 == InitTopWords(m0, base, size - TOP_FOOT_SIZE) && m2 == SetInuseSize(m1, csp, SEGMENT_CHUNK)
    requires m3 == CopyRecord(m2, csp + 16) && m == NewRecord(m3, base, size, exec, csp + 16)
    ensures EarlyStores(m0, m, csp, base, size, exec)
  {
    hide W, InitTopWords, CopyRecord, NewRecord;
    InitTopIs(m0, base, size - TOP_FOOT_SIZE);
    CopyIs(m2, csp + 16);
    NewRecordIs(m3, base, size, exec, csp + 16);
  }

  /** The rest of the old top gets its tags, if it is big enough to be a chunk. */
  ghost predicate RestStored(m: Mem, m': Mem, top: int, csp: int) {
    && m'.Keys == m.Keys
    && (csp == top ==> m' == m)
    && (csp != top ==>
      && W(m', csp + HEAD) == AndNotPinuse(W(m, csp + HEAD)) && W(m', top + HEAD) == csp - top + PINUSE_BIT
      && W(m', csp) == csp - top
      && forall a {:trigger W(m', a)} :: a != csp + HEAD && a != top + HEAD && a != csp ==> W(m', a) == W(m, a))
  }

  lemma RestDone(m: Mem, top: int, csp: int)
    requires csp % 8 == 0 && top % 8 == 0 && top + MIN_CHUNK_SIZE <= csp && top + HEAD in m && top + (csp - top) in m
    requires csp + HEAD in m
    ensures RestStored(m, SetFreeWithPinuse(m, top, csp - top, csp), top, csp)
  {
    hide W;
  }

  lemma RestNone(m: Mem, m': Mem, top: int, csp: int)
    requires csp == top ==> m' == m
    ensures csp == top ==> RestStored(m, m', top, csp)
  {
  }

  /** Together these are the writes that adding a segment needs. */
  lemma AddWritten(m0: Mem, m4: Mem, m5: Mem, m: Mem, s: State, base: int, size: int, exec: int)
    requires HeapOk(m0, s) && s.order != [] && Gained(m0, s.g, base, size) && HasTop(s)
    requires EarlyStores(m0, m4, RecordAt(s), base, size, exec)
    requires FencesWritten(m4, m5, RecordAt(s) + SEGMENT_CHUNK, s.g[s.order[0]].base + s.g[s.order[0]].size)
    requires RestStored(m5, m, s.top, RecordAt(s))
    ensures AddWrites(m0, m, s, base, size, exec) && m.Keys == m0.Keys
  {
    hide W, HeapOk, ShapeOk, RecordAt, SegOk, EarlyStores, FencesWritten, RestStored, AddWrites;
    ShapeOf(m0, s);
    RecordFits(s);
    RecordReadable(m0, s, 0);
    WordsOfSegment(s, s.order[0]);
    PagesAligned(size);
    AddWords(m0, m4, m5, m, s, base, size, exec);
  }

  lemma AddWords(m0: Mem, m4: Mem, m5: Mem, m: Mem, s: State, base: int, size: int, exec: int)
    requires HasTop(s) && TopEnd(s, RecordAt(s))
    requires EarlyStores(m0, m4, RecordAt(s), base, size, exec)
    requires FencesWritten(m4, m5, RecordAt(s) + SEGMENT_CHUNK, s.g[s.order[0]].base + s.g[s.order[0]].size)
    requires RestStored(m5, m, s.top, RecordAt(s))
    requires RecordWords(m0, s.g[s.order[0]], W(m0, GM_SEG + SEG_NEXT)) && size >= PAGE && base >= GM_END
    requires var sg := s.g[s.order[0]]; (sg.base + sg.size <= base || base + size <= sg.base) && sg.base >= GM_END
    ensures AddWrites(m0, m, s, base, size, exec) && m.Keys == m0.Keys
  {
    hide W, RecordAt;
  }

  /** The new segment and the remains of the old one are mapped, and the place is fit for a segment. */
  lemma AddReady(m0: Mem, m: Mem, s: State, hn: nat, base: int, size: int, exec: int)
    requires HeapOk(m0, s) && s.order != [] && Gained(m0, s.g, base, size) && hn !in s.g && m.Keys == m0.Keys
    requires HasTop(s)
    ensures CanAdd(s, hn, base, size) && MappedOk(m, Added(s, hn, base, size, exec).g)
  {
    hide W, HeapOk, ShapeOk, MappedOk, RecordAt, OldTop, SegOk, Added, Gained, FreshPlace;
    GainedFresh(m0, s.g, hn, base, size);
    forall a | GM <= a < GM_END ensures a in m {
      StaticMapped(m0, s, a);
    }
    var t := Added(s, hn, base, size, exec);
    forall h, a | h in t.g && t.g[h].base <= a < t.g[h].base + t.g[h].size ensures a in m {
      AddedRange(s, hn, base, size, exec, h);
      if h != hn {
        SegMapped(m0, s, h, a);
      }
    }
    MapsFrom(m, t.g);
  }

  lemma GainedFresh(m: Mem, g: Segs, hn: nat, base: int, size: int)
    requires Gained(m, g, base, size) && hn !in g
    ensures FreshPlace(g, hn, base, size)
    ensures forall a :: base <= a < base + size ==> a in m
  {
    PagesAligned(size);
    PagesAligned(base);
  }

  lemma AddedRange(s: State, hn: nat, base: int, size: int, exec: int, h: nat)
    requires HasTop(s) && hn !in s.g && h in Added(s, hn, base, size, exec).g
    ensures var x := Added(s, hn, base, size, exec).g[h];
      if h == hn then x.base == base && x.size == size
      else h in s.g && x.base == s.g[h].base && x.size == s.g[h].size
  {
    hide RecordAt, OldTop;
  }

  lemma AddMapped(m: Mem, s: State, base: int, size: int)
    requires HeapOk(m, s) && s.order != [] && Gained(m, s.g, base, size) && HasTop(s) && TopEnd(s, RecordAt(s))
    requires forall a :: RecordAt(s) <= a < s.g[s.order[0]].base + s.g[s.order[0]].size ==> a in m
    ensures forall a ::
      GM_SEG <= a < GM_END || RecordAt(s) <= a < RecordAt(s) + 72 || base <= a < base + size ==> a in m
    ensures base + HEAD in m && base + (size - TOP_FOOT_SIZE) + HEAD in m
    ensures RecordAt(s) + 72 <= base || base + size <= RecordAt(s)
    ensures RecordAt(s) >= GM_END && size >= PAGE && base % 8 == 0 && size % 8 == 0 && base >= GM_END
  {
    hide W, HeapOk, ShapeOk, RecordAt, Gained, TopEnd;
    AddPlace(m, s, base, size, RecordAt(s));
    forall a | GM_SEG <= a < GM_END ensures a in m {
      StaticMapped(m, s, a);
    }
  }

  lemma AddPlace(m: Mem, s: State, base: int, size: int, csp: int)
    requires HeapOk(m, s) && s.order != [] && Gained(m, s.g, base, size) && HasTop(s) && TopEnd(s, csp)
    ensures csp + 72 <= s.g[s.order[0]].base + s.g[s.order[0]].size
    ensures forall a :: base <= a < base + size ==> a in m
    ensures csp + 72 <= base || base + size <= csp
    ensures csp >= GM_END && size >= PAGE && base % 8 == 0 && size % 8 == 0 && base >= GM_END
  {
    hide W, HeapOk, ShapeOk;
    PagesAligned(size);
    ShapeOf(m, s);
    WordsOfSegment(s, s.order[0]);
    GainedAligned(m, s, base, size);
  }

  lemma FencesKeys(m: Mem, m': Mem, p: int, end: int)
    requires FencesWritten(m, m', p, end)
    ensures m'.Keys == m.Keys
  {
  }

  /** What is left of the old top waits for its bin. */
  lemma OldTopLeft(s: State, hn: nat, base: int, size: int, exec: int)
    requires HasTop(s) && CanAdd(s, hn, base, size) && TopEnd(s, RecordAt(s))
    ensures var t := Added(s, hn, base, size, exec); var rest := RecordAt(s) - s.top;
      rest != 0 ==> s.top in t.cs && t.cs[s.top].kind.Loose? && t.cs[s.top].size == rest
  {
    hide RecordAt;
  }

  lemma AtLeastAdded(m: Mem, s: State, least: int, hn: nat, base: int, size: int, exec: int)
    requires HasTop(s) && AtLeast(least, s.g) && Gained(m, s.g, base, size) && least <= base
    ensures AtLeast(least, Added(s, hn, base, size, exec).g)
  {
    hide RecordAt, OldTop;
  }

  function ViewAt(a: int, e: int): int {
    e
  }

  /** The system's answer is noted: the last word of the region tells how far its executable view is. */
  ghost method AliasNoted(m: Mem, s: State, alias: map<int, int>, base: int, size: int) returns (r: map<int, int>)
    requires AliasOk(alias, s.g) && Gained(m, s.g, base, size)
    ensures AliasOk(r, s.g) && AliasIs(r, base, size, W(m, base + size - 8))
  {
    hide W;
    var e := W(m, base + size - 8);
    r := alias + map a | base <= a < base + size :: ViewAt(a, e);
  }

  lemma AliasAdded(alias: map<int, int>, s: State, hn: nat, base: int, size: int, exec: int)
    requires HasTop(s) && AliasOk(alias, s.g) && AliasIs(alias, base, size, exec)
    ensures AliasOk(alias, Added(s, hn, base, size, exec).g)
  {
    hide RecordAt, OldTop;
  }

  lemma GroundsStarted(alias: map<int, int>, s: State, base: int, size: int, exec: int)
    requires AliasIs(alias, base, size, exec) && size >= PAGE && size % PAGE == 0 && base % PAGE == 0
    ensures var g := Started(s, 0, base, size, exec).g; AliasOk(alias, g) && AtLeast(base, g)
    ensures var t := Started(s, 0, base, size, exec); Footprint(t.g, t.order) == size && t.order != []
  {
    var t := Started(s, 0, base, size, exec);
    assert t.order[1..] == [];
  }

  lemma ExecRead(m0: Mem, m1: Mem, m2: Mem, m3: Mem, csp: int, base: int, size: int)
    requires csp >= GM_END && base >= GM_END && size >= PAGE && (csp + 72 <= base || base + size <= csp)
    requires forall a :: GM_SEG <= a < GM_END || csp <= a < csp + 72 ==> a in m0
    requires base + HEAD in m0 && base + (size - TOP_FOOT_SIZE) + HEAD in m0
    requires m1 == InitTopWords(m0, base, size - TOP_FOOT_SIZE) && m2 == SetInuseSize(m1, csp, SEGMENT_CHUNK)
    requires m3 == CopyRecord(m2, csp + 16)
    ensures W(m3, base + size - 8) == W(m0, base + size - 8)
  {
    hide W, InitTopWords, CopyRecord;
    InitTopIs(m0, base, size - TOP_FOOT_SIZE);
    CopyIs(m2, csp + 16);
  }

  /** Everything that linking a new segment achieves. */
  lemma LinkDone(m0: Mem, m4: Mem, m5: Mem, m: Mem, s: State, hn: nat, base: int, size: int, exec: int, least: int,
                 alias: map<int, int>)
    requires HeapOk(m0, s) && s.order != [] && Gained(m0, s.g, base, size) && HasTop(s) && hn !in s.g
    requires EarlyStores(m0, m4, RecordAt(s), base, size, exec)
    requires FencesWritten(m4, m5, RecordAt(s) + SEGMENT_CHUNK, s.g[s.order[0]].base + s.g[s.order[0]].size)
    requires RestStored(m5, m, s.top, RecordAt(s))
    requires AtLeast(least, s.g) && least <= base && AliasOk(alias, s.g) && AliasIs(alias, base, size, exec)
    ensures var t := Added(s, hn, base, size, exec);
      && HeapOk(m, t) && Unnoticed(m0, s, m, t) && AtLeast(least, t.g) && AliasOk(alias, t.g)
      && Footprint(t.g, t.order) == Footprint(s.g, s.order) + size
      && Pending(t.cs) == Pending(s.cs) + (if RecordAt(s) == s.top then {} else {s.top})
      && (RecordAt(s) != s.top ==> s.top in t.cs && t.cs[s.top].kind.Loose? && t.cs[s.top].size == RecordAt(s) - s.top)
  {
    hide W, HeapOk, ShapeOk, Footprint, Pending, Unnoticed, CanAdd, AddWrites, EarlyStores, FencesWritten, RestStored,
      MappedOk, RecordAt, OldTop, Gained, AtLeast, AliasOk, AliasIs, HasTop;
    AddWritten(m0, m4, m5, m, s, base, size, exec);
    AddReady(m0, m, s, hn, base, size, exec);
    AddDone(m0, m, s, hn, base, size, exec);
    FootprintAddedHere(m0, s, hn, base, size, exec);
    UnnoticedHeap(m0, s, m, Added(s, hn, base, size, exec));
    AtLeastAdded(m0, s, least, hn, base, size, exec);
    AliasAdded(alias, s, hn, base, size, exec);
    ShapeOf(m0, s);
    RecordFits(s);
    OldTopLeft(s, hn, base, size, exec);
  }

  // sys_alloc

  /** granularity_align: always to a later boundary, and wrapping around. */
  function GranularityAlign(x: int): int {
    var y := U64(x + PAGE);
    y - y % PAGE
  }

  /** The wrap-around checks of sys_alloc: what passes them leaves room for the request and the overhead of a segment.
      */
  lemma RoomOrWrap(nb: int)
    requires nb == MAX_SIZE_T || 0 <= nb <= MAX_REQUEST + 8
    ensures var rsize := GranularityAlign(U64(nb + TOP_FOOT_SIZE + 1));
      && 0 <= rsize && rsize % PAGE == 0
      && (rsize > nb ==> rsize > nb + TOP_FOOT_SIZE && nb != MAX_SIZE_T)
  {
    var req := U64(nb + TOP_FOOT_SIZE + 1);
    if nb == MAX_SIZE_T {
      assert req == TOP_FOOT_SIZE;
    } else {
      assert req == nb + TOP_FOOT_SIZE + 1;
      if req + PAGE >= TWO64 {
        assert U64(req + PAGE) < PAGE;
      }
    }
  }

  /** Only a request that is bound to fail reaches the direct mapping threshold, and mmap_alloc refuses it. */
  lemma NeverDirect(nb: int)
    requires nb == MAX_SIZE_T || 0 <= nb <= MAX_REQUEST + 8
    ensures nb >= MMAP_THRESHOLD ==> GranularityAlign(U64(nb + 48 + 7)) <= nb
  {
    if nb == MAX_SIZE_T {
      assert U64(nb + 48 + 7) == 54;
    }
  }

  /** A larger footprint does not overflow. */
  lemma FootprintRoom(m: Mem, s: State, base: int, size: int)
    requires HeapOk(m, s) && Gained(m, s.g, base, size)
    ensures 0 <= Footprint(s.g, s.order) + size < TWO64
  {
    hide W, HeapOk, ShapeOk, Footprint;
    ShapeOf(m, s);
    FootprintBound(s, base, size);
  }

  lemma TopPositive(m: Mem, s: State)
    requires HeapOk(m, s)
    ensures s.order != [] <==> s.top != 0
    ensures s.topsize >= 0
  {
    hide W, BinsOk, SegList, TagsOk, FencesOk, MappedOk, Coalesced, BinnedIs, RecordPlace, DvOk, Linked, NoOverlap,
      Firsts, SegsOk;
    DvPositive(s);
  }

  lemma GainedAligned(m: Mem, s: State, base: int, size: int)
    requires Gained(m, s.g, base, size)
    ensures base >= GM_END && size >= PAGE && size % PAGE == 0 && base % 8 == 0 && size % 8 == 0
    ensures forall h :: h in s.g ==> s.g[h].base + s.g[h].size <= base || base + size <= s.g[h].base
  {
    PagesAligned(size);
  }

  lemma AtLeastLowered(least: int, lower: int, g: Segs)
    requires AtLeast(least, g) && lower <= least
    ensures AtLeast(lower, g)
  {
  }
}
