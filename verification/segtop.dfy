/** The segment of top growing at its end, when new memory follows it, or shrinking there, when it is trimmed. */
module SegTop {
  import opened Bins
  import opened HeapKept
  import opened HeapMoves
  import opened HeapState
  import opened HeapTags
  import opened Tiles
  import opened Words

  ghost predicate HasTop(s: State) {
    s.order != [] && s.order[0] in s.g && s.top in s.cs
  }

  /** The heap with the first segment, and with it top, delta bytes longer or shorter. */
  function Resized(s: State, delta: int): State
    requires HasTop(s)
  {
    var h := s.order[0];
    s.(g := s.g[h := s.g[h].(size := s.g[h].size + delta, limit := s.g[h].limit + delta)],
       cs := s.cs[s.top := s.cs[s.top].(size := s.topsize + delta)],
       topsize := s.topsize + delta)
  }

  /** The first segment may be resized: something is left of top, and growth meets no other segment. */
  ghost predicate CanResize(s: State, delta: int) {
    && HasTop(s) && delta % 8 == 0 && s.topsize + delta > 0
    && var e := s.g[s.order[0]].base + s.g[s.order[0]].size;
    && e + delta < TWO64
    && forall k :: k in s.g && k != s.order[0] ==>
       s.g[k].base + s.g[k].size <= s.g[s.order[0]].base || e + delta <= s.g[k].base
  }

  lemma LongerSeg(sg: Seg, delta: int)
    requires SegOk(sg) && delta % 8 == 0 && sg.base < sg.limit + delta && sg.base + sg.size + delta < TWO64
    ensures SegOk(sg.(size := sg.size + delta, limit := sg.limit + delta))
  {
  }

  lemma ResizedSegs(s: State, delta: int)
    requires ShapeOk(s) && CanResize(s, delta)
    ensures SegsOk(Resized(s, delta).g)
  {
    hide Tiling, Coalesced, BinnedIs, DvOk, RecordPlace, SegOk;
    SegsOf(s);
    TopPlace(s);
    OneChunkBase(s, s.top);
    LongerSeg(s.g[s.order[0]], delta);
  }

  lemma SegsOf(s: State)
    requires ShapeOk(s)
    ensures SegsOk(s.g)
  {
  }

  lemma OneChunkBase(s: State, p: int)
    requires ShapeOk(s) && p in s.cs
    ensures s.cs[p].home in s.g && s.g[s.cs[p].home].base <= p
  {
    hide Linked, NoOverlap, Firsts, Coalesced, BinnedIs, DvOk, RecordPlace, TopOk, SegsOk;
  }

  /** Every chunk but top ends where it did, at or before top if it shares top's segment. */
  lemma BeforeTop(s: State, q: int)
    requires ShapeOk(s) && HasTop(s) && q in s.cs && q != s.top && s.cs[q].home == s.order[0]
    ensures q + s.cs[q].size <= s.top
  {
    hide Linked, Firsts, Coalesced, BinnedIs, DvOk, RecordPlace, SegsOk;
  }

  lemma ResizedHomes(s: State, delta: int)
    requires ShapeOk(s) && CanResize(s, delta)
    ensures Homes(Resized(s, delta).cs, Resized(s, delta).g)
  {
    hide Linked, NoOverlap, Firsts, Coalesced, BinnedIs, DvOk, RecordPlace, SegsOk;
    var t := Resized(s, delta);
    TopPlace(s);
    forall q | q in t.cs
      ensures t.cs[q].home in t.g && TileOk(q, t.cs[q], t.g[t.cs[q].home])
    {
      assert TileOk(q, s.cs[q], s.g[s.cs[q].home]);
      if q != s.top && s.cs[q].home == s.order[0] {
        BeforeTop(s, q);
      }
    }
  }

  lemma ResizedNext(s: State, delta: int, q: int)
    requires ShapeOk(s) && CanResize(s, delta) && q in s.cs && s.cs[q].home in s.g
    ensures NextOk(q, Resized(s, delta).cs, Resized(s, delta).g)
  {
    hide NoOverlap, Firsts, Coalesced, BinnedIs, DvOk, RecordPlace, SegsOk;
    TopPlace(s);
    assert NextOk(q, s.cs, s.g);
    if q != s.top && s.cs[q].home == s.order[0] {
      BeforeTop(s, q);
    }
  }

  lemma ResizedLinked(s: State, delta: int)
    requires ShapeOk(s) && CanResize(s, delta)
    ensures Homes(Resized(s, delta).cs, Resized(s, delta).g) && Linked(Resized(s, delta).cs, Resized(s, delta).g)
  {
    hide NextOk, Coalesced, BinnedIs, DvOk, RecordPlace, SegsOk, TopOk, NoOverlap;
    var t := Resized(s, delta);
    ResizedHomes(s, delta);
    forall q | q in t.cs ensures NextOk(q, t.cs, t.g) {
      ResizedNext(s, delta, q);
    }
  }

  lemma ResizedNoOverlap(s: State, delta: int)
    requires ShapeOk(s) && CanResize(s, delta)
    ensures NoOverlap(Resized(s, delta).cs)
  {
    hide NextOk, Coalesced, BinnedIs, DvOk, RecordPlace, Linked, Firsts;
    var t := Resized(s, delta);
    TopPlace(s);
    OneChunkBase(s, s.top);
    forall p, q | p in t.cs && q in t.cs && p < q
      ensures p + t.cs[p].size <= q
    {
      if p == s.top {
        if s.cs[q].home == s.order[0] {
          BeforeTop(s, q);
        } else {
          assert SegOk(s.g[s.cs[q].home]) && SegOk(s.g[s.order[0]]);
        }
      }
    }
  }

  lemma ResizedTiling(s: State, delta: int)
    requires ShapeOk(s) && CanResize(s, delta)
    ensures Tiling(Resized(s, delta).cs, Resized(s, delta).g)
  {
    hide Linked, Coalesced, BinnedIs, DvOk, RecordPlace, SegsOk, Homes, TopOk, NoOverlap;
    ResizedSegs(s, delta);
    ResizedLinked(s, delta);
    ResizedNoOverlap(s, delta);
  }

  lemma ResizedShape(s: State, delta: int)
    requires ShapeOk(s) && CanResize(s, delta)
    ensures ShapeOk(Resized(s, delta))
  {
    hide Tiling;
    TopPlace(s);
    ResizedTiling(s, delta);
  }

  /** What resizing writes: the size in the segment record, the head of top, the word behind top, and memory that has
      come or gone. */
  ghost predicate ResizeWrites(m: Mem, m': Mem, s: State, delta: int)
    requires HasTop(s)
  {
    var e := s.g[s.order[0]].base + s.g[s.order[0]].size;
    && W(m', GM_SEG + SEG_SIZE) == s.g[s.order[0]].size + delta
    && W(m', s.top + HEAD) == s.topsize + delta + PINUSE_BIT
    && W(m', s.top + s.topsize + delta + HEAD) == TOP_FOOT_SIZE
    && forall a {:trigger W(m', a)} ::
      a != GM_SEG + SEG_SIZE && a != s.top + HEAD && a != s.top + s.topsize + delta + HEAD &&
        !(e <= a < e + delta) && !(e + delta <= a < e)
      ==> W(m', a) == W(m, a)
  }

  /** The words written lie in the first segment, at or after top, or in the new memory. */
  lemma ResizeApart(m: Mem, m': Mem, s: State, delta: int, a: int)
    requires ShapeOk(s) && CanResize(s, delta) && ResizeWrites(m, m', s, delta)
    requires a < s.top + HEAD || a >= (if delta > 0 then s.g[s.order[0]].base + s.g[s.order[0]].size + delta
                                       else s.g[s.order[0]].base + s.g[s.order[0]].size)
    requires a != GM_SEG + SEG_SIZE
    ensures W(m', a) == W(m, a)
  {
    hide W, Tiling, BinnedIs, DvOk, RecordPlace, Coalesced;
    TopPlace(s);
  }

  /** Words of other segments are not written. */
  lemma ResizeElsewhere(m: Mem, m': Mem, s: State, delta: int, h: nat, a: int)
    requires ShapeOk(s) && CanResize(s, delta) && ResizeWrites(m, m', s, delta)
    requires h in s.g && h != s.order[0] && s.g[h].base <= a < s.g[h].base + s.g[h].size
    ensures W(m', a) == W(m, a)
  {
    hide W, Linked, NoOverlap, Firsts, BinnedIs, DvOk, RecordPlace, Coalesced, TopOk, ResizeWrites;
    assert SegOk(s.g[h]) && SegOk(s.g[s.order[0]]);
    OneChunkBase(s, s.top);
    TopPlace(s);
    ResizeApart(m, m', s, delta, a);
  }

  lemma ResizedTags(m: Mem, m': Mem, s: State, delta: int)
    requires HeapOk(m, s) && CanResize(s, delta) && ResizeWrites(m, m', s, delta)
    ensures TagsOk(m', Resized(s, delta).cs)
  {
    hide W, Tiling, BinnedIs, DvOk, RecordPlace, Coalesced, TopOk, FencesOk, BinsOk, SegList, MappedOk, ResizeWrites,
      MkHead;
    var t := Resized(s, delta);
    ShapeOf(m, s);
    TopPlace(s);
    forall q | q in t.cs
      ensures HeadOk(m', q, t.cs[q]) && FootOk(m', q, t.cs[q])
    {
      if q == s.top {
        ResizedTopHead(m, m', s, delta);
      } else {
        OneChunkBase(s, q);
        OneChunk(s, q);
        WordsOfSegment(s, s.cs[q].home);
        assert HeadOk(m, q, s.cs[q]) && FootOk(m, q, s.cs[q]);
        if s.cs[q].home == s.order[0] {
          BeforeTop(s, q);
          ResizeApart(m, m', s, delta, q + HEAD);
          ResizeApart(m, m', s, delta, q + s.cs[q].size);
        } else {
          ResizeElsewhere(m, m', s, delta, s.cs[q].home, q + HEAD);
          ResizeElsewhere(m, m', s, delta, s.cs[q].home, q + s.cs[q].size);
        }
      }
    }
  }

  lemma ResizedTopHead(m: Mem, m': Mem, s: State, delta: int)
    requires ShapeOk(s) && CanResize(s, delta) && ResizeWrites(m, m', s, delta)
    ensures var c := Resized(s, delta).cs[s.top]; HeadOk(m', s.top, c) && c.kind.Top?
  {
    hide Tiling, BinnedIs, DvOk, RecordPlace, Coalesced;
    TopPlace(s);
  }

  lemma WordsOfSegment(s: State, h: nat)
    requires ShapeOk(s) && h in s.g
    ensures s.g[h].limit + 24 <= s.g[h].base + s.g[h].size && s.g[h].base >= GM_END && s.g[h].base < s.g[h].limit
  {
    hide Linked, NoOverlap, Firsts, BinnedIs, DvOk, RecordPlace, Coalesced, TopOk;
    assert SegOk(s.g[h]);
  }

  lemma ResizedFences(m: Mem, m': Mem, s: State, delta: int)
    requires HeapOk(m, s) && CanResize(s, delta) && ResizeWrites(m, m', s, delta)
    ensures FencesOk(m', Resized(s, delta).g)
  {
    hide W, Tiling, BinnedIs, DvOk, RecordPlace, Coalesced, TagsOk, BinsOk, SegList, MappedOk;
    var t := Resized(s, delta);
    ShapeOf(m, s);
    TopPlace(s);
    forall h | h in t.g
      ensures FenceOk(m', t.g[h])
    {
      assert FenceOk(m, s.g[h]);
      WordsOfSegment(s, h);
      if h != s.order[0] {
        ResizeElsewhere(m, m', s, delta, h, s.g[h].limit + HEAD);
      }
    }
  }

  lemma ResizedBins(m: Mem, m': Mem, s: State, delta: int)
    requires HeapOk(m, s) && CanResize(s, delta) && ResizeWrites(m, m', s, delta)
    ensures BinsOk(m', s.b)
  {
    hide W, Tiling, DvOk, RecordPlace, Coalesced, TagsOk, BinsOk, SegList, MappedOk, FencesOk, ResizeWrites, TopOk;
    ShapeOf(m, s);
    TopPlace(s);
    OneChunkBase(s, s.top);
    WordsOfSegment(s, s.order[0]);
    forall a | SMALLBINS <= a < GM_SEG
      ensures W(m', a) == W(m, a)
    {
      ResizeApart(m, m', s, delta, a);
    }
    forall p, a | p in s.b.bn && p + FD <= a < p + s.b.bn[p]
      ensures W(m', a) == W(m, a)
    {
      BinnedSame(m, m', s, delta, p, a);
    }
    BinsFrame(m, m', s.b);
  }

  lemma BinnedSame(m: Mem, m': Mem, s: State, delta: int, p: int, a: int)
    requires ShapeOk(s) && CanResize(s, delta) && ResizeWrites(m, m', s, delta)
    requires p in s.cs && !s.cs[p].kind.Top? && p <= a < p + s.cs[p].size + 8
    ensures W(m', a) == W(m, a)
  {
    hide W, Tiling, DvOk, RecordPlace, Coalesced, TopOk, ResizeWrites, BinnedIs;
    TopPlace(s);
    OneChunk(s, p);
    OneChunkBase(s, p);
    WordsOfSegment(s, s.cs[p].home);
    if s.cs[p].home == s.order[0] {
      BeforeTop(s, p);
      ResizeApart(m, m', s, delta, a);
    } else {
      ResizeElsewhere(m, m', s, delta, s.cs[p].home, a);
    }
  }

  lemma ResizedList(m: Mem, m': Mem, s: State, delta: int)
    requires HeapOk(m, s) && CanResize(s, delta) && ResizeWrites(m, m', s, delta)
    ensures var t := Resized(s, delta);
      (forall j :: 0 <= j < |t.order| ==> t.order[j] in t.g) && SegList(m', t.g, t.order)
  {
    hide W, Tiling, DvOk, Coalesced, TagsOk, BinsOk, MappedOk, FencesOk, BinnedIs, RecordWords;
    var t := Resized(s, delta);
    ShapeOf(m, s);
    forall k | 0 <= k < |t.order|
      ensures RecordWords(m', t.g[t.order[k]], NextRec(t.g, t.order, k))
    {
      assert RecordWords(m, s.g[s.order[k]], NextRec(s.g, s.order, k));
      if k == 0 {
        ResizedRecord(m, m', s, delta, NextRec(s.g, s.order, 0));
      } else {
        OtherRecord(m, m', s, delta, k, NextRec(s.g, s.order, k));
      }
    }
  }

  lemma ResizedRecord(m: Mem, m': Mem, s: State, delta: int, next: int)
    requires ShapeOk(s) && CanResize(s, delta) && ResizeWrites(m, m', s, delta) && RecordWords(m, s.g[s.order[0]], next)
    ensures RecordWords(m', Resized(s, delta).g[s.order[0]], next)
  {
    hide W, Tiling, DvOk, RecordPlace, Coalesced, BinnedIs;
    TopPlace(s);
    OneChunkBase(s, s.top);
    WordsOfSegment(s, s.order[0]);
  }

  lemma OtherRecord(m: Mem, m': Mem, s: State, delta: int, k: int, next: int)
    requires ShapeOk(s) && CanResize(s, delta) && ResizeWrites(m, m', s, delta)
    requires 1 <= k < |s.order| && RecordWords(m, s.g[s.order[k]], next)
    ensures RecordWords(m', Resized(s, delta).g[s.order[k]], next)
  {
    hide W, Tiling, DvOk, Coalesced, TopOk, ResizeWrites, BinnedIs;
    assert RecordIn(s.cs, s.order[k], s.g[s.order[k]]);
    var p := s.g[s.order[k]].rec - 16;
    forall a | p + 16 <= a < p + 48
      ensures W(m', a) == W(m, a)
    {
      BinnedSame(m, m', s, delta, p, a);
    }
  }

  /** Appending to the segment of top, or trimming it, gives a heap again, and the clients notice nothing. */
  lemma ResizeDone(m: Mem, m': Mem, s: State, delta: int)
    requires HeapOk(m, s) && CanResize(s, delta) && ResizeWrites(m, m', s, delta) && MappedOk(m', Resized(s, delta).g)
    ensures Unnoticed(m, s, m', Resized(s, delta)) && Pending(Resized(s, delta).cs) == Pending(s.cs)
  {
    hide W, ShapeOk, TagsOk, FencesOk, BinsOk, SegList, MappedOk, CanResize, ResizeWrites;
    ShapeOf(m, s);
    ResizedShape(s, delta);
    ResizedTags(m, m', s, delta);
    ResizedFences(m, m', s, delta);
    ResizedBins(m, m', s, delta);
    ResizedList(m, m', s, delta);
    ResizedKept(m, m', s, delta);
  }

  lemma ResizedKept(m: Mem, m': Mem, s: State, delta: int)
    requires ShapeOk(s) && CanResize(s, delta) && ResizeWrites(m, m', s, delta)
    ensures var t := Resized(s, delta);
      Users(t.cs) == Users(s.cs) && Kept(m, s, m', t, Users(s.cs)) && Pending(t.cs) == Pending(s.cs)
  {
    hide W, Tiling, DvOk, RecordPlace, Coalesced, BinnedIs, ResizeWrites;
    TopPlace(s);
    forall q, a | q in Users(s.cs) && q + 16 <= a < q + Users(s.cs)[q] + 8
      ensures W(m', a) == W(m, a)
    {
      BinnedSame(m, m', s, delta, q, a);
    }
  }
}
