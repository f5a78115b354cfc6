/** New memory joining the front of a segment: it becomes a first chunk that has no tags yet. */
module SegPrepend {
  import opened Bins
  import opened HeapKept
  import opened HeapMoves
  import opened HeapState
  import opened HeapTags
  import opened SegTop
  import opened Tiles
  import opened Words

  /** The heap with size bytes of untagged memory before segment h. */
  function Prepended(s: State, h: nat, size: int): State
    requires h in s.g
  {
    var sg := s.g[h];
    s.(g := s.g[h := sg.(base := sg.base - size, size := sg.size + size)],
       cs := s.cs[sg.base - size := Chunk(size, true, Fresh, h)])
  }

  /** The memory below the segment is aligned and belongs to no segment. */
  ghost predicate CanPrepend(s: State, h: nat, size: int) {
    && h in s.g && size % 8 == 0 && size >= MIN_CHUNK_SIZE && s.g[h].base - size >= GM_END
    && forall k :: k in s.g && k != h ==>
       s.g[k].base + s.g[k].size <= s.g[h].base - size || s.g[h].base + s.g[h].size <= s.g[k].base
  }

  lemma NoneBelow(s: State, h: nat, size: int, q: int)
    requires ShapeOk(s) && h in s.g && CanPrepend(s, h, size) && q in s.cs
    ensures q >= s.g[h].base || q < q + s.cs[q].size <= s.g[h].base - size
  {
    hide Linked, NoOverlap, Firsts, Coalesced, BinnedIs, DvOk, RecordPlace, TopOk;
    assert SegOk(s.g[s.cs[q].home]) && SegOk(s.g[h]);
  }

  lemma LowerSeg(sg: Seg, size: int)
    requires SegOk(sg) && size % 8 == 0 && size > 0 && sg.base - size >= GM_END
    ensures SegOk(sg.(base := sg.base - size, size := sg.size + size))
    ensures TileOk(sg.base - size, Chunk(size, true, Fresh, 0), sg.(base := sg.base - size, size := sg.size + size)) ||
      size < MIN_CHUNK_SIZE
  {
  }

  lemma PrependedSegs(s: State, h: nat, size: int)
    requires ShapeOk(s) && h in s.g && CanPrepend(s, h, size)
    ensures SegsOk(Prepended(s, h, size).g)
  {
    hide Tiling, Coalesced, BinnedIs, DvOk, RecordPlace, SegOk, TopOk;
    SegsOf(s);
    LowerSeg(s.g[h], size);
  }

  lemma PrependedLinked(s: State, h: nat, size: int)
    requires ShapeOk(s) && h in s.g && CanPrepend(s, h, size)
    ensures Homes(Prepended(s, h, size).cs, Prepended(s, h, size).g)
    ensures Linked(Prepended(s, h, size).cs, Prepended(s, h, size).g)
  {
    hide NoOverlap, Coalesced, BinnedIs, DvOk, RecordPlace, SegsOk, TopOk, NextOk;
    var t := Prepended(s, h, size);
    WordsOfSegment(s, h);
    forall q | q in t.cs
      ensures t.cs[q].home in t.g && TileOk(q, t.cs[q], t.g[t.cs[q].home])
    {
      PrependedTile(s, h, size, q);
    }
    forall q | q in t.cs ensures NextOk(q, t.cs, t.g) {
      PrependedNext(s, h, size, q);
    }
  }

  lemma PrependedTile(s: State, h: nat, size: int, q: int)
    requires ShapeOk(s) && h in s.g && CanPrepend(s, h, size) && q in Prepended(s, h, size).cs
    ensures var t := Prepended(s, h, size); t.cs[q].home in t.g && TileOk(q, t.cs[q], t.g[t.cs[q].home])
  {
    hide NoOverlap, Coalesced, BinnedIs, DvOk, RecordPlace, TopOk, Linked, Firsts, SegsOk, SegOk;
    assert SegOk(s.g[h]) by { SegsOf(s); }
    LowerSeg(s.g[h], size);
    NotThere(s, h, size);
    if q in s.cs {
      NoneBelow(s, h, size, q);
      assert TileOk(q, s.cs[q], s.g[s.cs[q].home]);
    }
  }

  lemma PrependedNext(s: State, h: nat, size: int, q: int)
    requires ShapeOk(s) && h in s.g && CanPrepend(s, h, size) && q in Prepended(s, h, size).cs
    requires var t := Prepended(s, h, size); t.cs[q].home in t.g
    ensures var t := Prepended(s, h, size); NextOk(q, t.cs, t.g)
  {
    hide NoOverlap, Coalesced, BinnedIs, DvOk, RecordPlace, TopOk, SegOk, TileOk, Linked, SegsOk;
    WordsOfSegment(s, h);
    if q in s.cs {
      NoneBelow(s, h, size, q);
      NextIn(s, q);
      if q + s.cs[q].size in s.cs {
        NoneBelow(s, h, size, q + s.cs[q].size);
      }
    }
  }

  lemma NextIn(s: State, q: int)
    requires ShapeOk(s) && q in s.cs
    ensures s.cs[q].home in s.g && NextOk(q, s.cs, s.g)
  {
    hide NoOverlap, Coalesced, BinnedIs, DvOk, RecordPlace, TopOk, SegsOk, Firsts;
  }

  lemma PrependedTiling(s: State, h: nat, size: int)
    requires ShapeOk(s) && h in s.g && CanPrepend(s, h, size)
    ensures Tiling(Prepended(s, h, size).cs, Prepended(s, h, size).g)
  {
    hide Linked, Coalesced, BinnedIs, DvOk, RecordPlace, SegsOk, Homes, TopOk, NoOverlap, Firsts;
    PrependedSegs(s, h, size);
    PrependedLinked(s, h, size);
    PrependedNoOverlap(s, h, size);
  }

  lemma PrependedNoOverlap(s: State, h: nat, size: int)
    requires ShapeOk(s) && h in s.g && CanPrepend(s, h, size)
    ensures NoOverlap(Prepended(s, h, size).cs) && Firsts(Prepended(s, h, size).cs, Prepended(s, h, size).g)
  {
    hide Linked, Coalesced, BinnedIs, DvOk, RecordPlace, SegsOk, Homes, TopOk;
    NotThere(s, h, size);
    forall q | q in s.cs
      ensures q >= s.g[h].base || q < q + s.cs[q].size <= s.g[h].base - size
    {
      NoneBelow(s, h, size, q);
    }
  }

  lemma PrependedShape(s: State, h: nat, size: int)
    requires ShapeOk(s) && h in s.g && CanPrepend(s, h, size)
    ensures ShapeOk(Prepended(s, h, size))
  {
    hide Tiling, Coalesced, BinnedIs, DvOk, RecordPlace, TopOk;
    PrependedTiling(s, h, size);
    PrependedRest(s, h, size);
  }

  lemma PrependedRest(s: State, h: nat, size: int)
    requires ShapeOk(s) && h in s.g && CanPrepend(s, h, size)
    ensures var t := Prepended(s, h, size); Coalesced(t.cs) && BinnedIs(t.cs, t.b.bn) && DvOk(t.cs, t.dv, t.dvsize)
    ensures var t := Prepended(s, h, size);
      TopOk(t.cs, t.g, t.order, t.top, t.topsize) && RecordPlace(t.cs, t.g, t.order)
  {
    hide Tiling, RecordPlace;
    NotThere(s, h, size);
    PrependedRecords(s, h, size);
  }

  lemma PrependedRecords(s: State, h: nat, size: int)
    requires ShapeOk(s) && h in s.g && CanPrepend(s, h, size)
    ensures var t := Prepended(s, h, size); RecordPlace(t.cs, t.g, t.order)
  {
    hide Tiling, Coalesced, BinnedIs, DvOk, TopOk;
    NotThere(s, h, size);
    var t := Prepended(s, h, size);
    forall k | 1 <= k < |t.order| ensures RecordIn(t.cs, t.order[k], t.g[t.order[k]]) {
      assert RecordIn(s.cs, s.order[k], s.g[s.order[k]]);
    }
  }

  lemma NotThere(s: State, h: nat, size: int)
    requires ShapeOk(s) && h in s.g && CanPrepend(s, h, size)
    ensures s.g[h].base - size !in s.cs
  {
    hide Tiling, Coalesced, BinnedIs, DvOk, RecordPlace, TopOk;
    if s.g[h].base - size in s.cs {
      NoneBelow(s, h, size, s.g[h].base - size);
    }
  }

  /** What joining the memory writes: base and size in the segment record, and the memory itself. */
  ghost predicate PrependWrites(m: Mem, m': Mem, s: State, h: nat, size: int)
    requires h in s.g
  {
    var sg := s.g[h];
    && W(m', sg.rec + SEG_BASE) == sg.base - size && W(m', sg.rec + SEG_SIZE) == sg.size + size
    && forall a {:trigger W(m', a)} ::
      a != sg.rec + SEG_BASE && a != sg.rec + SEG_SIZE && !(sg.base - size <= a < sg.base) ==> W(m', a) == W(m, a)
  }

  /** Words of chunks are not written, unless they are those of the record. */
  lemma PrependApart(m: Mem, m': Mem, s: State, h: nat, size: int, q: int, a: int)
    requires ShapeOk(s) && h in s.g && CanPrepend(s, h, size) && PrependWrites(m, m', s, h, size)
    requires q in s.cs && q <= a < q + s.cs[q].size + 16 && (s.cs[q].kind.Record? ==> a < q + 16 || a >= q + 32)
    ensures W(m', a) == W(m, a)
  {
    hide W, Tiling, Coalesced, BinnedIs, DvOk, RecordPlace, TopOk;
    WordsOfSegment(s, h);
    OneChunk(s, q);
    OneChunkBase(s, q);
    WordsOfSegment(s, s.cs[q].home);
    RecordOf(s, h);
    assert NoOverlap(s.cs) by { NoOverlapOf(s); }
  }

  lemma NoOverlapOf(s: State)
    requires ShapeOk(s)
    ensures NoOverlap(s.cs)
  {
  }

  /** Where the record of a segment is. */
  lemma RecordOf(s: State, h: nat)
    requires ShapeOk(s) && h in s.g
    ensures s.g[h].rec == GM_SEG || (s.g[h].rec - 16 in s.cs && s.cs[s.g[h].rec - 16].kind.Record? &&
                                     s.cs[s.g[h].rec - 16].size == SEGMENT_CHUNK)
  {
    hide Tiling, Coalesced, BinnedIs, DvOk;
    var k :| 0 <= k < |s.order| && s.order[k] == h;
    assert k > 0 ==> RecordIn(s.cs, s.order[k], s.g[h]);
  }

  lemma PrependedTags(m: Mem, m': Mem, s: State, h: nat, size: int)
    requires HeapOk(m, s) && h in s.g && CanPrepend(s, h, size) && PrependWrites(m, m', s, h, size)
    ensures TagsOk(m', Prepended(s, h, size).cs)
  {
    hide W, Tiling, BinnedIs, DvOk, RecordPlace, Coalesced, TopOk, FencesOk, BinsOk, SegList, MappedOk, PrependWrites,
      MkHead, CanPrepend;
    var t := Prepended(s, h, size);
    ShapeOf(m, s);
    NotThere(s, h, size);
    forall q | q in t.cs
      ensures HeadOk(m', q, t.cs[q]) && FootOk(m', q, t.cs[q])
    {
      if q in s.cs {
        TagsAt(m, s, q);
        PrependApart(m, m', s, h, size, q, q + HEAD);
        if !s.cs[q].kind.Record? {
          PrependApart(m, m', s, h, size, q, q + s.cs[q].size);
        }
      }
    }
  }

  /** Words of the overhead at the end of a segment are not written. */
  lemma PrependFar(m: Mem, m': Mem, s: State, h: nat, size: int, k: nat, a: int)
    requires ShapeOk(s) && h in s.g && CanPrepend(s, h, size) && PrependWrites(m, m', s, h, size)
    requires k in s.g && s.g[k].limit <= a < s.g[k].base + s.g[k].size
    ensures W(m', a) == W(m, a)
  {
    hide W, Tiling, BinnedIs, DvOk, RecordPlace, Coalesced, TopOk;
    WordsOfSegment(s, h);
    WordsOfSegment(s, k);
    RecordOf(s, h);
    if s.g[h].rec != GM_SEG {
      var r := s.g[h].rec - 16;
      OneChunk(s, r);
      OneChunkBase(s, r);
      WordsOfSegment(s, s.cs[r].home);
      SegsOf(s);
    }
  }

  lemma PrependedFences(m: Mem, m': Mem, s: State, h: nat, size: int)
    requires HeapOk(m, s) && h in s.g && CanPrepend(s, h, size) && PrependWrites(m, m', s, h, size)
    ensures FencesOk(m', Prepended(s, h, size).g)
  {
    hide W, Tiling, BinnedIs, DvOk, RecordPlace, Coalesced, TagsOk, BinsOk, SegList, MappedOk, PrependWrites,
      CanPrepend, TopOk;
    var t := Prepended(s, h, size);
    ShapeOf(m, s);
    forall k | k in t.g
      ensures FenceOk(m', t.g[k])
    {
      assert FenceOk(m, s.g[k]);
      WordsOfSegment(s, k);
      PrependFar(m, m', s, h, size, k, s.g[k].limit + HEAD);
    }
  }

  lemma PrependedBins(m: Mem, m': Mem, s: State, h: nat, size: int)
    requires HeapOk(m, s) && h in s.g && CanPrepend(s, h, size) && PrependWrites(m, m', s, h, size)
    ensures BinsOk(m', s.b)
  {
    hide W, Tiling, DvOk, RecordPlace, Coalesced, TagsOk, BinsOk, SegList, MappedOk, FencesOk, PrependWrites, TopOk,
      CanPrepend;
    ShapeOf(m, s);
    forall a | SMALLBINS <= a < GM_SEG
      ensures W(m', a) == W(m, a)
    {
      PrependLow(m, m', s, h, size, a);
    }
    forall p, a | p in s.b.bn && p + FD <= a < p + s.b.bn[p]
      ensures W(m', a) == W(m, a)
    {
      PrependApart(m, m', s, h, size, p, a);
    }
    BinsFrame(m, m', s.b);
  }

  lemma PrependLow(m: Mem, m': Mem, s: State, h: nat, size: int, a: int)
    requires ShapeOk(s) && h in s.g && CanPrepend(s, h, size) && PrependWrites(m, m', s, h, size) && a < GM_SEG
    ensures W(m', a) == W(m, a)
  {
    hide W, Tiling, DvOk, RecordPlace, Coalesced, TopOk, BinnedIs;
    RecordOf(s, h);
    WordsOfSegment(s, h);
    if s.g[h].rec != GM_SEG {
      OneChunkBase(s, s.g[h].rec - 16);
      WordsOfSegment(s, s.cs[s.g[h].rec - 16].home);
    }
  }

  /** The words of another record are not written. */
  lemma OtherRecordKept(m: Mem, m': Mem, s: State, h: nat, size: int, k: nat, next: int)
    requires ShapeOk(s) && h in s.g && CanPrepend(s, h, size) && PrependWrites(m, m', s, h, size)
    requires 0 <= k < |s.order| && s.order[k] in s.g && s.order[k] != h && RecordWords(m, s.g[s.order[k]], next)
    ensures RecordWords(m', Prepended(s, h, size).g[s.order[k]], next)
  {
    hide W, Tiling, DvOk, Coalesced, BinnedIs, RecordPlace, TopOk;
    RecordsApart(s, h, size, s.order[k]);
  }

  /** Records are apart from each other and from memory below a segment. */
  lemma RecordsApart(s: State, h: nat, size: int, k: nat)
    requires ShapeOk(s) && h in s.g && CanPrepend(s, h, size) && k in s.g && h in s.g && k != h
    ensures s.g[k].rec + 32 <= s.g[h].rec || s.g[h].rec + 32 <= s.g[k].rec
    ensures s.g[k].rec + 32 <= s.g[h].base - size || s.g[k].rec >= s.g[h].base
  {
    hide W, Linked, Homes, Firsts, DvOk, Coalesced, BinnedIs, SegsOk;
    WordsOfSegment(s, h);
    WordsOfSegment(s, k);
    RecordHome(s, h);
    RecordHome(s, k);
  }

  /** A record in memory lies in its own segment. */
  lemma RecordHome(s: State, h: nat)
    requires ShapeOk(s) && h in s.g
    ensures if s.order[0] == h then s.g[h].rec == GM_SEG
      else s.g[h].base + 16 <= s.g[h].rec && s.g[h].rec + 32 <= s.g[h].base + s.g[h].size
    ensures s.order != []
  {
    hide Linked, Firsts, NoOverlap, Coalesced, BinnedIs, DvOk, SegsOk;
    var k :| 0 <= k < |s.order| && s.order[k] == h;
    WordsOfSegment(s, h);
    if k > 0 {
      assert RecordIn(s.cs, s.order[k], s.g[h]);
    }
  }

  lemma OwnRecord(m: Mem, m': Mem, s: State, h: nat, size: int, next: int)
    requires ShapeOk(s) && h in s.g && CanPrepend(s, h, size) && PrependWrites(m, m', s, h, size)
    requires RecordWords(m, s.g[h], next)
    ensures RecordWords(m', Prepended(s, h, size).g[h], next)
  {
    hide W, Tiling, DvOk, Coalesced, BinnedIs, RecordPlace, TopOk;
    WordsOfSegment(s, h);
    RecordHome(s, h);
  }

  lemma OrderIn(s: State)
    requires ShapeOk(s)
    ensures forall j :: 0 <= j < |s.order| ==> s.order[j] in s.g
    ensures forall h :: h in s.g ==> h in s.order
  {
  }

  lemma PrependedList(m: Mem, m': Mem, s: State, h: nat, size: int)
    requires HeapOk(m, s) && h in s.g && CanPrepend(s, h, size) && PrependWrites(m, m', s, h, size)
    ensures var t := Prepended(s, h, size);
      (forall j :: 0 <= j < |t.order| ==> t.order[j] in t.g) && SegList(m', t.g, t.order)
  {
    hide W, ShapeOk, TagsOk, BinsOk, MappedOk, FencesOk, RecordWords, CanPrepend, PrependWrites;
    var t := Prepended(s, h, size);
    ShapeOf(m, s);
    OrderIn(s);
    RecordHome(s, h);
    forall k | 0 <= k < |t.order|
      ensures RecordWords(m', t.g[t.order[k]], NextRec(t.g, t.order, k))
    {
      assert RecordWords(m, s.g[s.order[k]], NextRec(s.g, s.order, k));
      if s.order[k] == h {
        OwnRecord(m, m', s, h, size, NextRec(s.g, s.order, k));
      } else {
        OtherRecordKept(m, m', s, h, size, k, NextRec(s.g, s.order, k));
      }
    }
  }

  lemma PrependedKept(m: Mem, m': Mem, s: State, h: nat, size: int)
    requires ShapeOk(s) && h in s.g && CanPrepend(s, h, size) && PrependWrites(m, m', s, h, size)
    ensures Users(Prepended(s, h, size).cs) == Users(s.cs)
    ensures Kept(m, s, m', Prepended(s, h, size), Users(s.cs))
    ensures Pending(Prepended(s, h, size).cs) == Pending(s.cs) + {s.g[h].base - size}
  {
    hide W, Tiling, DvOk, RecordPlace, Coalesced, BinnedIs, PrependWrites, CanPrepend, TopOk;
    NotThere(s, h, size);
    forall q, a | q in Users(s.cs) && q + 16 <= a < q + Users(s.cs)[q] + 8
      ensures W(m', a) == W(m, a)
    {
      PrependApart(m, m', s, h, size, q, a);
    }
    var t := Prepended(s, h, size);
    forall q | q in s.cs
      ensures t.cs[q] == s.cs[q] && ExecOf(t, q) == ExecOf(s, q)
    {
    }
  }

  /** Memory joining the front of a segment gives a heap again, and the clients notice nothing. */
  lemma PrependDone(m: Mem, m': Mem, s: State, h: nat, size: int)
    requires HeapOk(m, s) && h in s.g && CanPrepend(s, h, size) && PrependWrites(m, m', s, h, size)
    requires MappedOk(m', Prepended(s, h, size).g)
    ensures Unnoticed(m, s, m', Prepended(s, h, size))
    ensures Pending(Prepended(s, h, size).cs) == Pending(s.cs) + {s.g[h].base - size}
  {
    hide W, ShapeOk, TagsOk, FencesOk, BinsOk, SegList, MappedOk, CanPrepend, PrependWrites;
    ShapeOf(m, s);
    PrependedShape(s, h, size);
    PrependedTags(m, m', s, h, size);
    PrependedFences(m, m', s, h, size);
    PrependedBins(m, m', s, h, size);
    PrependedList(m, m', s, h, size);
    PrependedKept(m, m', s, h, size);
  }
}
