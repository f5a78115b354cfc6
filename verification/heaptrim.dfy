/** What giving memory back relies on. */
module HeapTrim {
  import opened Bins
  import opened HeapGrow
  import opened HeapMoves
  import opened HeapSpace
  import opened HeapState
  import opened HeapSteps
  import opened HeapTags
  import opened SegAdd
  import opened SegDrop
  import opened SegPrepend
  import opened SegTop
  import opened Tiles
  import opened Words

  /** Memory with a region removed. */
  function WithoutRegion(m: Mem, base: int, size: int): (r: Mem)
    ensures forall a :: a in r <==> a in m && !(base <= a < base + size)
  {
    map a | a in m && !(base <= a < base + size) :: m[a]
  }

  /** A segment of the list but the first, whose first chunk is free and reaches the overhead at its end. */
  ghost predicate Idle(s: State, k: int) {
    && 1 <= k < |s.order| && s.order[k] in s.g
    && var sg := s.g[s.order[k]];
    sg.base in s.cs && !InUse(s.cs[sg.base].kind) && sg.base + s.cs[sg.base].size >= sg.base + sg.size - TOP_FOOT_SIZE
  }

  /** The only free chunk of an idle segment is large, and it is binned or the victim. */
  lemma IdleChunk(m: Mem, s: State, least: int, k: int)
    requires HeapOk(m, s) && AtLeast(least, s.g) && Idle(s, k) && Pending(s.cs) == {}
    ensures var p := s.g[s.order[k]].base; !IsSmall(s.cs[p].size) && Recognized(m, s, p) && p != s.top
    ensures var sg := s.g[s.order[k]]; s.cs[sg.base].home == s.order[k] && sg.base + s.cs[sg.base].size == sg.rec - 16
    ensures s.order[k - 1] in s.g
  {
    hide W, HeapOk, ShapeOk, Pending, Recognized;
    ShapeOf(m, s);
    OrderIs(s);
    OnlyRecord(s, k);
    var p := s.g[s.order[k]].base;
    Recognize(m, s, p);
    TopNotAt(s, p);
    NotTopIn(s, k);
  }

  /** Once its chunk is loose, an idle segment can be dropped. */
  lemma IdleDroppable(s: State, s1: State, k: int)
    requires Idle(s, k) && s.order[k - 1] in s.g && s1.g == s.g && s1.order == s.order
    requires var sg := s.g[s.order[k]]; s.cs[sg.base].home == s.order[k] && sg.base + s.cs[sg.base].size == sg.rec - 16
    requires var p := s.g[s.order[k]].base; p in s1.cs && s1.cs[p] == s.cs[p].(kind := Loose)
    ensures Droppable(s1, k)
  {
  }

  lemma DropMapped(m: Mem, s: State, k: int)
    requires HeapOk(m, s) && Droppable(s, k)
    ensures var sg := s.g[s.order[k]]; s.g[s.order[k - 1]].rec + SEG_NEXT in WithoutRegion(m, sg.base, sg.size)
  {
    hide W, HeapOk, ShapeOk;
    ShapeOf(m, s);
    RecordReadable(m, s, k - 1);
    DropRecordFar(s, k);
  }

  /** The record before a dropped segment is not in that segment. */
  lemma DropRecordFar(s: State, k: int)
    requires ShapeOk(s) && Droppable(s, k)
    ensures var sg := s.g[s.order[k]]; var r := s.g[s.order[k - 1]].rec; r + 32 <= sg.base || sg.base + sg.size <= r
  {
    hide ShapeOk;
    OrderIs(s);
    SegsOf(s);
    RecordHome(s, s.order[k - 1]);
    WordsOfSegment(s, s.order[k]);
    WordsOfSegment(s, s.order[k - 1]);
  }

  lemma DropWritten(m0: Mem, m: Mem, s: State, k: int, next: int)
    requires HeapOk(m0, s) && Droppable(s, k) && next == W(m0, s.g[s.order[k]].rec + SEG_NEXT)
    requires var sg := s.g[s.order[k]]; var r := s.g[s.order[k - 1]].rec + SEG_NEXT;
      var m1 := WithoutRegion(m0, sg.base, sg.size);
      r in m1 && m == Put(m1, r, next)
    ensures DropWrites(m0, m, s, k) && MappedOk(m, Dropped(s, k).g)
  {
    hide HeapOk, ShapeOk, MappedOk, WithoutRegion;
    var sg := s.g[s.order[k]];
    ShapeOf(m0, s);
    DropRecordFar(s, k);
    forall a | !(sg.base <= a < sg.base + sg.size) ensures W(WithoutRegion(m0, sg.base, sg.size), a) == W(m0, a) {
      WithoutWord(m0, sg.base, sg.size, a);
    }
    DropMaps(m0, m, s, k);
  }

  lemma WithoutWord(m: Mem, base: int, size: int, a: int)
    requires !(base <= a < base + size)
    ensures W(WithoutRegion(m, base, size), a) == W(m, a)
  {
  }

  lemma DropMaps(m0: Mem, m: Mem, s: State, k: int)
    requires HeapOk(m0, s) && Droppable(s, k)
    requires var sg := s.g[s.order[k]]; forall a :: a in m0 && !(sg.base <= a < sg.base + sg.size) ==> a in m
    ensures MappedOk(m, Dropped(s, k).g)
  {
    hide W, HeapOk, ShapeOk, MappedOk;
    ShapeOf(m0, s);
    var t := Dropped(s, k);
    DroppedSegs(s, k);
    SegsOf(s);
    WordsOfSegment(s, s.order[k]);
    forall a | GM <= a < GM_END ensures a in m {
      StaticMapped(m0, s, a);
    }
    forall h, a | h in t.g && t.g[h].base <= a < t.g[h].base + t.g[h].size ensures a in m {
      SegMapped(m0, s, h, a);
    }
    MapsFrom(m, t.g);
  }

  lemma GroundsDropped(m: Mem, s: State, k: int, least: int, alias: map<int, int>)
    requires HeapOk(m, s) && Droppable(s, k) && AtLeast(least, s.g) && AliasOk(alias, s.g)
    ensures var t := Dropped(s, k);
      && AtLeast(least, t.g) && AliasOk(alias, t.g) && t.order == Skip(s.order, k) && t.g == s.g - {s.order[k]}
      && Footprint(t.g, t.order) == Footprint(s.g, s.order) - s.g[s.order[k]].size
      && t.dv == s.dv && t.dvsize == s.dvsize && t.top == s.top && t.topsize == s.topsize && t.b == s.b
      && s.g[s.order[k]].size > 0
  {
    hide HeapOk, ShapeOk, Footprint;
    ShapeOf(m, s);
    FootprintDropped(s, k);
    WordsOfSegment(s, s.order[k]);
  }

  lemma NextStays(m: Mem, s: State, m1: Mem, s1: State, k: int, next: int)
    requires HeapOk(m, s) && HeapOk(m1, s1) && s1.g == s.g && s1.order == s.order && 0 <= k < |s.order|
    requires s.order[k] in s.g
    requires next == W(m, s.g[s.order[k]].rec + SEG_NEXT)
    ensures next == W(m1, s1.g[s1.order[k]].rec + SEG_NEXT)
  {
    hide W, HeapOk;
    RecordReadable(m, s, k);
    RecordReadable(m1, s1, k);
  }

  lemma RekindHere(cs: Chunks, p: int, k: Kind)
    requires p in cs
    ensures p in Rekind(cs, p, k) && Rekind(cs, p, k)[p] == cs[p].(kind := k)
  {
  }

  // Shrinking top

  /** The whole pages that sys_trim gives back when top is to keep more than pad bytes. */
  function Surplus(topsize: int, pad: int): int
    requires topsize > pad
  {
    ((topsize - pad + (PAGE - 1)) / PAGE - 1) * PAGE
  }

  /** It is a number of whole pages, it leaves top larger than pad, and one page less would leave it larger by a page.
      */
  lemma SurplusIs(topsize: int, pad: int)
    requires topsize > pad
    ensures var extra := Surplus(topsize, pad);
      0 <= extra && extra % PAGE == 0 && pad < topsize - extra <= pad + PAGE
  {
  }

  /** The record of any other segment lies in the segment itself. */
  lemma HoldsOwnRecord(m: Mem, s: State, k: int)
    requires HeapOk(m, s) && 0 <= k < |s.order|
    ensures s.order[k] in s.g && (k > 0 ==> HoldsAddress(s.g[s.order[k]], s.g[s.order[k]].rec))
  {
    hide W, HeapOk, ShapeOk, HoldsAddress;
    ShapeOf(m, s);
    OrderIs(s);
    if k > 0 { RecordInside(s, k); }
  }

  lemma RecordInside(s: State, k: int)
    requires ShapeOk(s) && 1 <= k < |s.order| && s.order[k] in s.g
    ensures HoldsAddress(s.g[s.order[k]], s.g[s.order[k]].rec)
  {
    hide Coalesced, BinnedIs, DvOk, TopOk, Linked, Firsts, NoOverlap;
    assert RecordIn(s.cs, s.order[k], s.g[s.order[k]]);
    assert SegOk(s.g[s.order[k]]);
  }

  /** No record lies in the first segment: the check that would keep it from being trimmed never strikes. */
  lemma FirstHasNoRecord(m: Mem, s: State, j: int)
    requires HeapOk(m, s) && 0 <= j < |s.order|
    ensures s.order[0] in s.g && s.order[j] in s.g && !HoldsAddress(s.g[s.order[0]], s.g[s.order[j]].rec)
  {
    hide W, HeapOk, ShapeOk;
    ShapeOf(m, s);
    OrderIs(s);
    RecordHome(s, s.order[j]);
    SegsOf(s);
    WordsOfSegment(s, s.order[0]);
    WordsOfSegment(s, s.order[j]);
  }

  lemma TrimReady(m: Mem, s: State, extra: int)
    requires HeapOk(m, s) && s.order != [] && 0 <= extra < s.topsize && extra % PAGE == 0
    ensures CanResize(s, -extra) && s.order[0] in s.g && HasTop(s)
    ensures var sg := s.g[s.order[0]];
      s.top + s.topsize == sg.base + sg.size - TOP_FOOT_SIZE && sg.base <= s.top && sg.rec == GM_SEG && sg.size >= extra
    ensures var sg := s.g[s.order[0]]; var m1 := WithoutRegion(m, sg.base + sg.size - extra, extra);
      GM_SEG + SEG_SIZE in m1 && s.top + HEAD in m1 && s.top + (s.topsize - extra) + HEAD in m1
  {
    hide W, HeapOk, ShapeOk, SegOk, WithoutRegion;
    ShapeOf(m, s);
    TopPlace(s);
    OneChunk(s, s.top);
    OneChunkBase(s, s.top);
    WordsOfSegment(s, s.order[0]);
    SegsOf(s);
    SegBound(s, s.order[0]);
    StaticMapped(m, s, GM_SEG + SEG_SIZE);
    SegMapped(m, s, s.order[0], s.top + HEAD);
    SegMapped(m, s, s.order[0], s.top + (s.topsize - extra) + HEAD);
    TrimAligned(extra);
  }

  lemma TrimAligned(extra: int)
    requires extra % PAGE == 0
    ensures (-extra) % 8 == 0
  {
  }

  lemma SegBound(s: State, h: nat)
    requires ShapeOk(s) && h in s.g
    ensures s.g[h].base + s.g[h].size < TWO64
  {
    hide ShapeOk;
    SegsOf(s);
    assert SegOk(s.g[h]);
  }

  /** The stores of sys_trim after the pages have gone. */
  ghost predicate TrimStores(m0: Mem, m: Mem, s: State, extra: int) {
    && s.order != [] && s.order[0] in s.g
    && var sg := s.g[s.order[0]];
    var m1 := WithoutRegion(m0, sg.base + sg.size - extra, extra);
    && GM_SEG + SEG_SIZE in m1 && s.top + HEAD in m1 && s.top + (s.topsize - extra) + HEAD in m1
    && m == InitTopWords(Put(m1, GM_SEG + SEG_SIZE, sg.size - extra), s.top, s.topsize - extra)
  }

  lemma TrimWritten(m0: Mem, m: Mem, s: State, extra: int)
    requires HeapOk(m0, s) && 0 < extra < s.topsize && extra % PAGE == 0 && TrimStores(m0, m, s, extra)
    ensures CanResize(s, -extra) && HasTop(s) && ResizeWrites(m0, m, s, -extra) && MappedOk(m, Resized(s, -extra).g)
  {
    hide W, HeapOk, ShapeOk, CanResize, SegOk, MappedOk, WithoutRegion, InitTopWords;
    var sg := s.g[s.order[0]];
    var end := sg.base + sg.size - extra;
    var m1 := WithoutRegion(m0, end, extra);
    ShapeOf(m0, s);
    TopPlace(s);
    OneChunk(s, s.top);
    OneChunkBase(s, s.top);
    WordsOfSegment(s, s.order[0]);
    TrimReady(m0, s, extra);
    forall a | !(end <= a < end + extra) ensures W(m1, a) == W(m0, a) {
      WithoutWord(m0, end, extra, a);
    }
    InitTopIs(Put(m1, GM_SEG + SEG_SIZE, sg.size - extra), s.top, s.topsize - extra);
    TrimMaps(m0, m, s, extra);
  }

  lemma TrimMaps(m0: Mem, m: Mem, s: State, extra: int)
    requires HeapOk(m0, s) && HasTop(s) && extra > 0
    requires var sg := s.g[s.order[0]];
      forall a :: a in m0 && !(sg.base + sg.size - extra <= a < sg.base + sg.size) ==> a in m
    requires s.g[s.order[0]].base >= GM_END && s.g[s.order[0]].size >= extra
    ensures MappedOk(m, Resized(s, -extra).g)
  {
    hide W, HeapOk, ShapeOk, MappedOk;
    ShapeOf(m0, s);
    SegsOf(s);
    var t := Resized(s, -extra);
    forall a | GM <= a < GM_END ensures a in m {
      StaticMapped(m0, s, a);
    }
    forall h, a | h in t.g && t.g[h].base <= a < t.g[h].base + t.g[h].size ensures a in m {
      SegMapped(m0, s, h, a);
    }
    MapsFrom(m, t.g);
  }

  lemma GroundsTrimmed(m: Mem, s: State, extra: int, least: int, alias: map<int, int>)
    requires HeapOk(m, s) && s.order != [] && 0 < extra < s.topsize && extra % PAGE == 0 && AtLeast(least, s.g)
    requires AliasOk(alias, s.g)
    ensures HasTop(s)
    ensures var t := Resized(s, -extra);
      AtLeast(least, t.g) && AliasOk(alias, t.g) && Footprint(t.g, t.order) == Footprint(s.g, s.order) - extra
  {
    hide W, HeapOk, ShapeOk, Footprint, SegOk;
    ShapeOf(m, s);
    TopPlace(s);
    OneChunkBase(s, s.top);
    TrimReady(m, s, extra);
    FootprintResized(s, -extra);
    var t := Resized(s, -extra);
    PagesLeft(s.g[s.order[0]].size, extra);
    forall h | h in t.g ensures AliasIs(alias, t.g[h].base, t.g[h].size, t.g[h].exec) {
      assert AliasIs(alias, s.g[h].base, s.g[h].size, s.g[h].exec);
    }
  }

  lemma PagesLeft(size: int, extra: int)
    requires size % PAGE == 0 && extra % PAGE == 0 && size > extra
    ensures (size - extra) % PAGE == 0 && size - extra >= PAGE
  {
  }

  /** Segments that are still there are as they were. */
  ghost predicate FewerSegs(g: Segs, g': Segs) {
    forall h :: h in g' ==> h in g && g'[h] == g[h]
  }

  /** The place in the list that a walk has reached. */
  ghost predicate WalkAt(m: Mem, s: State, k: int, pred: int, sp: int) {
    && 1 <= k <= |s.order| && s.order[k - 1] in s.g && pred == s.g[s.order[k - 1]].rec
    && (k == |s.order| ==> sp == 0)
    && (k < |s.order| ==> s.order[k] in s.g && sp == s.g[s.order[k]].rec && sp != 0)
  }

  lemma WalkStarts(m: Mem, s: State)
    requires HeapOk(m, s) && s.order != []
    ensures WalkAt(m, s, 1, GM_SEG, W(m, GM_SEG + SEG_NEXT)) && GM_SEG + SEG_NEXT in m
  {
    hide W, HeapOk;
    RecordReadable(m, s, 0);
    if 1 < |s.order| {
      RecordReadable(m, s, 1);
    }
  }

  /** What the walk reads at a segment. */
  lemma WalkReads(m: Mem, s: State, k: int, pred: int, sp: int)
    requires HeapOk(m, s) && WalkAt(m, s, k, pred, sp) && k < |s.order| && Pending(s.cs) == {}
    ensures var sg := s.g[s.order[k]];
      && sp + SEG_BASE in m && sp + SEG_SIZE in m && sp + SEG_NEXT in m && W(m, sp + SEG_BASE) == sg.base
      && W(m, sp + SEG_SIZE) == sg.size
      && Recognized(m, s, sg.base) && sg.base % 8 == 0
    ensures WalkAt(m, s, k + 1, sp, W(m, sp + SEG_NEXT))
  {
    hide W, HeapOk, ShapeOk, Recognized, Pending;
    ShapeOf(m, s);
    RecordReadable(m, s, k);
    if k + 1 < |s.order| {
      RecordReadable(m, s, k + 1);
    }
    FirstsOf(s, s.order[k]);
    OneChunk(s, s.g[s.order[k]].base);
    Recognize(m, s, s.g[s.order[k]].base);
  }

  /** After a segment has been dropped, the walk goes on from the one before. */
  lemma WalkSkips(m: Mem, s: State, m': Mem, t: State, k: int, pred: int, sp: int, next: int)
    requires HeapOk(m, s) && HeapOk(m', t) && WalkAt(m, s, k, pred, sp) && WalkAt(m, s, k + 1, sp, next)
    requires t.order == Skip(s.order, k) && t.g == s.g - {s.order[k]}
    ensures WalkAt(m', t, k, pred, next)
  {
    hide W, HeapOk, ShapeOk, Skip;
    ShapeOf(m, s);
    OrderIs(s);
    SkipLength(s.order, k);
    SkipAt(s.order, k, k - 1);
    if k < |t.order| {
      SkipAt(s.order, k, k);
    }
  }

  lemma WalkStays(m: Mem, s: State, m': Mem, t: State, k: int, pred: int, sp: int)
    requires WalkAt(m, s, k, pred, sp) && t.order == s.order && t.g == s.g
    ensures WalkAt(m', t, k, pred, sp)
  {
  }

  lemma WalkNotDone(m: Mem, s: State, k: int, pred: int, sp: int)
    requires WalkAt(m, s, k, pred, sp) && sp != 0
    ensures k < |s.order| && s.order[k] in s.g && s.order[k - 1] in s.g && pred == s.g[s.order[k - 1]].rec
    ensures sp == s.g[s.order[k]].rec && k >= 1
  {
  }

  lemma SizePositive(m: Mem, s: State, k: int)
    requires HeapOk(m, s) && 0 <= k < |s.order| && s.order[k] in s.g
    ensures s.g[s.order[k]].size > 0
  {
    hide W, HeapOk;
    RecordReadable(m, s, k);
  }

  lemma HoldsIs(sg: Seg, a: int)
    ensures HoldsAddress(sg, a) <==> sg.base <= a < sg.base + sg.size
  {
  }

  lemma WithoutNone(m: Mem, base: int, size: int)
    ensures size <= 0 ==> WithoutRegion(m, base, size) == m
  {
    if size <= 0 {
      assert WithoutRegion(m, base, size) == m;
    }
  }

  lemma TrimWords(m: Mem, s: State, extra: int)
    requires HeapOk(m, s) && s.order != [] && 0 <= extra < s.topsize && extra % PAGE == 0
    ensures s.order[0] in s.g
    ensures var sg := s.g[s.order[0]];
      && GM_SEG + SEG_SIZE in m && GM_SEG + SEG_BASE in m && W(m, GM_SEG + SEG_SIZE) == sg.size
      && W(m, GM_SEG + SEG_BASE) == sg.base && sg.rec == GM_SEG
      && W(WithoutRegion(m, sg.base + (sg.size - extra), extra), GM_SEG + SEG_SIZE) == sg.size
  {
    hide W, HeapOk, ShapeOk, WithoutRegion, CanResize, HasTop;
    RecordReadable(m, s, 0);
    TrimReady(m, s, extra);
    ShapeOf(m, s);
    WordsOfSegment(s, s.order[0]);
    WithoutWord(m, s.g[s.order[0]].base + (s.g[s.order[0]].size - extra), extra, GM_SEG + SEG_SIZE);
  }

  ghost predicate LastPagesGone(m0: Mem, m1: Mem, s: State, extra: int) {
    s.order != [] && s.order[0] in s.g &&
    m1 == WithoutRegion(m0, s.g[s.order[0]].base + (s.g[s.order[0]].size - extra), extra)
  }

  lemma TrimStored(m0: Mem, m1: Mem, m: Mem, s: State, extra: int)
    requires HeapOk(m0, s) && 0 < extra < s.topsize && extra % PAGE == 0 && LastPagesGone(m0, m1, s, extra)
    requires GM_SEG + SEG_SIZE in m1 && s.top + HEAD in m1 && s.top + (s.topsize - extra) + HEAD in m1
    requires m == InitTopWords(Put(m1, GM_SEG + SEG_SIZE, W(m1, GM_SEG + SEG_SIZE) - extra), s.top, s.topsize - extra)
    ensures TrimStores(m0, m, s, extra)
  {
    hide W, HeapOk, WithoutRegion, InitTopWords;
    TrimWords(m0, s, extra);
    var sg := s.g[s.order[0]];
    assert sg.base + (sg.size - extra) == sg.base + sg.size - extra;
  }

  lemma TrimDone(m0: Mem, m: Mem, s: State, extra: int, least: int, alias: map<int, int>)
    requires HeapOk(m0, s) && 0 < extra < s.topsize && extra % PAGE == 0 && TrimStores(m0, m, s, extra)
    requires AtLeast(least, s.g) && AliasOk(alias, s.g)
    ensures HasTop(s)
    ensures var t := Resized(s, -extra);
      && HeapOk(m, t) && Unnoticed(m0, s, m, t) && Pending(t.cs) == Pending(s.cs) && AtLeast(least, t.g)
      && AliasOk(alias, t.g)
      && Footprint(t.g, t.order) == Footprint(s.g, s.order) - extra
  {
    hide W, HeapOk, ShapeOk, Footprint, SegOk, CanResize, ResizeWrites, MappedOk, AtLeast, AliasOk, Unnoticed, Pending;
    TrimWritten(m0, m, s, extra);
    ResizeDone(m0, m, s, -extra);
    GroundsTrimmed(m0, s, extra, least, alias);
    UnnoticedHeap(m0, s, m, Resized(s, -extra));
  }
}
