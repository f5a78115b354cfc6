/** A new segment for memory that joins no other: its end becomes top, and the end of the old top's segment takes the
    record and the fenceposts. */
module SegAdd {
  import opened BinIndex
  import opened Bins
  import opened HeapKept
  import opened HeapMoves
  import opened HeapState
  import opened HeapTags
  import opened SegTop
  import opened Tiles
  import opened TrieMem
  import opened Tries
  import opened Words

  /** Where the record of the old segment goes: to the overhead behind top, or over top itself when top is too small to
      be a chunk. */
  function RecordAt(s: State): int {
    if s.topsize < MIN_CHUNK_SIZE then s.top else s.top + s.topsize
  }

  /** What becomes of the chunk that was top. */
  function OldTop(s: State): Chunks
    requires HasTop(s)
  {
    var csp := RecordAt(s);
    var c := Chunk(SEGMENT_CHUNK, csp == s.top, Record, s.order[0]);
    if csp == s.top then s.cs[csp := c] else s.cs[s.top := s.cs[s.top].(size := csp - s.top, kind := Loose)][csp := c]
  }

  function Added(s: State, hn: nat, base: int, size: int, exec: int): State
    requires HasTop(s)
  {
    var csp := RecordAt(s);
    var h := s.order[0];
    s.(g := s.g[h := s.g[h].(limit := csp + SEGMENT_CHUNK, rec := csp + 16)]
              [hn := Seg(base, size, base + size - TOP_FOOT_SIZE, exec, GM_SEG)],
       cs := OldTop(s)[base := Chunk(size - TOP_FOOT_SIZE, true, Top, hn)],
       order := [hn] + s.order, top := base, topsize := size - TOP_FOOT_SIZE)
  }

  ghost predicate FreshPlace(g: Segs, hn: nat, base: int, size: int) {
    && hn !in g && base % 8 == 0 && size % 8 == 0 && size > TOP_FOOT_SIZE && base >= GM_END && base + size < TWO64
    && forall k :: k in g ==> g[k].base + g[k].size <= base || base + size <= g[k].base
  }

  ghost predicate CanAdd(s: State, hn: nat, base: int, size: int) {
    HasTop(s) && FreshPlace(s.g, hn, base, size)
  }

  // The facts about the old top that everything rests on

  ghost predicate TopEnd(s: State, csp: int) {
    && HasTop(s)
    && s.top <= csp && (csp == s.top || csp >= s.top + MIN_CHUNK_SIZE) && csp % 8 == 0
    && csp + 72 <= s.g[s.order[0]].base + s.g[s.order[0]].size
    && s.g[s.order[0]].base <= s.top && s.g[s.order[0]].limit <= csp + SEGMENT_CHUNK
    && s.top % 8 == 0 && s.cs[s.top].pin && s.cs[s.top].home == s.order[0] && s.order[0] in s.g
    && s.g[s.order[0]].rec == GM_SEG
    && (csp != s.top ==> csp !in s.cs)
  }

  /** The record and at least two fenceposts fit the end of the old segment: the room that TOP_FOOT_SIZE keeps. */
  lemma RecordFits(s: State)
    requires ShapeOk(s) && HasTop(s)
    ensures TopEnd(s, RecordAt(s))
  {
    hide BinnedIs, DvOk, RecordPlace, Linked, NoOverlap, Firsts, SegsOk;
    OneChunkBase(s, s.top);
    OneChunk(s, s.top);
    TopPlace(s);
  }

  lemma OldTopAt(s: State, q: int)
    requires HasTop(s)
    ensures q in OldTop(s) <==> q in s.cs || q == RecordAt(s)
    ensures q in OldTop(s) ==>
      OldTop(s)[q] == if q == RecordAt(s) then Chunk(SEGMENT_CHUNK, RecordAt(s) == s.top, Record, s.order[0])
        else if q == s.top then s.cs[s.top].(size := RecordAt(s) - s.top, kind := Loose) else s.cs[q]
  {
  }

  /** No chunk of the heap is near the new memory. */
  lemma NoneNear(s: State, hn: nat, base: int, size: int, q: int)
    requires ShapeOk(s) && FreshPlace(s.g, hn, base, size) && q in s.cs
    ensures q < q + s.cs[q].size < base - 16 || q >= base + size
    ensures s.cs[q].home != hn
  {
    hide Linked, NoOverlap, Firsts, Coalesced, BinnedIs, DvOk, RecordPlace, TopOk;
    assert SegOk(s.g[s.cs[q].home]);
  }

  lemma NewSegOk(base: int, size: int, exec: int)
    requires base % 8 == 0 && size % 8 == 0 && size > TOP_FOOT_SIZE && base >= GM_END && base + size < TWO64
    ensures SegOk(Seg(base, size, base + size - TOP_FOOT_SIZE, exec, GM_SEG))
  {
  }

  lemma ClosedSegOk(sg: Seg, csp: int)
    requires SegOk(sg) && csp % 8 == 0 && sg.base <= csp && csp + 72 <= sg.base + sg.size
    ensures SegOk(sg.(limit := csp + SEGMENT_CHUNK, rec := csp + 16))
  {
  }

  lemma AddedSegs(s: State, hn: nat, base: int, size: int, exec: int)
    requires ShapeOk(s) && CanAdd(s, hn, base, size)
    ensures SegsOk(Added(s, hn, base, size, exec).g)
  {
    hide Tiling, Coalesced, BinnedIs, DvOk, RecordPlace, SegOk, TopOk, OldTop, RecordAt;
    SegsOf(s);
    var h, csp := s.order[0], RecordAt(s);
    RecordFits(s);
    ClosedSegOk(s.g[h], csp);
    var closed := s.g[h].(limit := csp + SEGMENT_CHUNK, rec := csp + 16);
    RedrawnSeg(s.g, h, closed);
    NewSegOk(base, size, exec);
    OneMoreSeg(s.g[h := closed], hn, Seg(base, size, base + size - TOP_FOOT_SIZE, exec, GM_SEG));
  }

  /** A segment may get other bounds for its chunks. */
  lemma RedrawnSeg(g: Segs, h: nat, x: Seg)
    requires SegsOk(g) && h in g && SegOk(x) && x.base == g[h].base && x.size == g[h].size
    ensures SegsOk(g[h := x])
  {
    hide SegOk;
  }

  lemma OneMoreSeg(g: Segs, h: nat, x: Seg)
    requires SegsOk(g) && h !in g && SegOk(x)
    requires forall k :: k in g ==> g[k].base + g[k].size <= x.base || x.base + x.size <= g[k].base
    ensures SegsOk(g[h := x])
  {
    hide SegOk;
  }

  lemma EndTiles(s: State, csp: int, pin: bool)
    requires TopEnd(s, csp) && TileOk(s.top, s.cs[s.top], s.g[s.order[0]])
    ensures var sg := s.g[s.order[0]].(limit := csp + SEGMENT_CHUNK, rec := csp + 16);
      TileOk(csp, Chunk(SEGMENT_CHUNK, pin, Record, s.order[0]), sg)
      && (csp != s.top ==> TileOk(s.top, s.cs[s.top].(size := csp - s.top, kind := Loose), sg))
  {
  }

  lemma NewTile(hn: nat, base: int, size: int, exec: int)
    requires base % 8 == 0 && size % 8 == 0 && size > TOP_FOOT_SIZE
    ensures TileOk(base, Chunk(size - TOP_FOOT_SIZE, true, Top, hn),
                   Seg(base, size, base + size - TOP_FOOT_SIZE, exec, GM_SEG))
  {
  }

  lemma TileShorter(q: int, c: Chunk, sg: Seg, limit: int, rec: int)
    requires TileOk(q, c, sg) && q + c.size <= limit
    ensures TileOk(q, c, sg.(limit := limit, rec := rec))
  {
  }

  lemma AddedTile(s: State, hn: nat, base: int, size: int, exec: int, q: int)
    requires ShapeOk(s) && CanAdd(s, hn, base, size) && q in Added(s, hn, base, size, exec).cs
    ensures var t := Added(s, hn, base, size, exec); t.cs[q].home in t.g && TileOk(q, t.cs[q], t.g[t.cs[q].home])
  {
    hide Linked, NoOverlap, Firsts, Coalesced, BinnedIs, DvOk, RecordPlace, OldTop, RecordAt, SegsOk, TileOk, TopOk;
    var t := Added(s, hn, base, size, exec);
    RecordFits(s);
    OldTopAt(s, q);
    TopPlace(s);
    if q == base {
      NewTile(hn, base, size, exec);
    } else if q == RecordAt(s) || q == s.top {
      EndTiles(s, RecordAt(s), RecordAt(s) == s.top);
    } else {
      NoneNear(s, hn, base, size, q);
      if s.cs[q].home == s.order[0] {
        BeforeTop(s, q);
        TileShorter(q, s.cs[q], s.g[s.order[0]], RecordAt(s) + SEGMENT_CHUNK, RecordAt(s) + 16);
      }
    }
  }

  lemma AddedNext(s: State, hn: nat, base: int, size: int, exec: int, q: int)
    requires ShapeOk(s) && CanAdd(s, hn, base, size) && q in Added(s, hn, base, size, exec).cs
    requires var t := Added(s, hn, base, size, exec); t.cs[q].home in t.g
    ensures var t := Added(s, hn, base, size, exec); NextOk(q, t.cs, t.g)
  {
    hide NoOverlap, Firsts, Coalesced, BinnedIs, DvOk, RecordPlace, OldTop, RecordAt, SegsOk, Homes;
    var t := Added(s, hn, base, size, exec);
    RecordFits(s);
    OldTopAt(s, q);
    TopPlace(s);
    if q in s.cs && q != base {
      assert NextOk(q, s.cs, s.g) by { LinkedOf(s, q); }
      NoneNear(s, hn, base, size, q);
      OldTopAt(s, q + t.cs[q].size);
      if q != s.top && s.cs[q].home == s.order[0] {
        BeforeTop(s, q);
      }
      if q + s.cs[q].size in s.cs {
        NoneNear(s, hn, base, size, q + s.cs[q].size);
      }
    }
  }

  lemma LinkedOf(s: State, q: int)
    requires ShapeOk(s) && q in s.cs
    ensures s.cs[q].home in s.g && NextOk(q, s.cs, s.g)
  {
    hide NextOk;
  }

  lemma AddedNoOverlap(s: State, hn: nat, base: int, size: int, exec: int)
    requires ShapeOk(s) && CanAdd(s, hn, base, size)
    ensures NoOverlap(Added(s, hn, base, size, exec).cs)
  {
    hide Linked, Firsts, Coalesced, BinnedIs, DvOk, RecordPlace, OldTop, RecordAt, SegsOk, Homes, TopOk;
    var t := Added(s, hn, base, size, exec);
    RecordFits(s);
    TopPlace(s);
    assert NoOverlap(s.cs);
    forall p, q | p in t.cs && q in t.cs && p < q
      ensures p + t.cs[p].size <= q
    {
      OldTopAt(s, p);
      OldTopAt(s, q);
      AddedPlace(s, hn, base, size, p);
      AddedPlace(s, hn, base, size, q);
    }
  }

  /** Where the other chunks are relative to the old end of top and to the new memory. */
  lemma AddedPlace(s: State, hn: nat, base: int, size: int, q: int)
    requires ShapeOk(s) && CanAdd(s, hn, base, size)
    ensures q in s.cs && q != s.top ==>
      (q + s.cs[q].size <= s.top || q >= RecordAt(s) + SEGMENT_CHUNK) && (q + s.cs[q].size <= base || q >= base + size)
    ensures q == s.top || q == RecordAt(s) ==> RecordAt(s) + SEGMENT_CHUNK <= base || q >= base + size
    ensures base !in s.cs && (q in s.cs ==> s.cs[q].size > 0)
  {
    hide Linked, Firsts, Coalesced, BinnedIs, DvOk, RecordPlace, RecordAt;
    RecordFits(s);
    TopPlace(s);
    WordsOfSegment(s, s.order[0]);
    if base in s.cs {
      NoneNear(s, hn, base, size, base);
    }
    if q in s.cs {
      OneChunk(s, q);
    }
    if q in s.cs && q != s.top {
      NoneNear(s, hn, base, size, q);
      OneChunkBase(s, q);
      WordsOfSegment(s, s.cs[q].home);
      if s.cs[q].home == s.order[0] {
        BeforeTop(s, q);
      }
    }
  }

  lemma AddedTiling(s: State, hn: nat, base: int, size: int, exec: int)
    requires ShapeOk(s) && CanAdd(s, hn, base, size)
    ensures Tiling(Added(s, hn, base, size, exec).cs, Added(s, hn, base, size, exec).g)
  {
    hide ShapeOk, SegsOk, NextOk, TileOk, NoOverlap, Firsts, OldTop, RecordAt;
    var t := Added(s, hn, base, size, exec);
    AddedSegs(s, hn, base, size, exec);
    forall q | q in t.cs ensures t.cs[q].home in t.g && TileOk(q, t.cs[q], t.g[t.cs[q].home]) {
      AddedTile(s, hn, base, size, exec, q);
    }
    forall q | q in t.cs ensures NextOk(q, t.cs, t.g) {
      AddedNext(s, hn, base, size, exec, q);
    }
    AddedNoOverlap(s, hn, base, size, exec);
    AddedFirsts(s, hn, base, size, exec);
  }

  lemma AddedFirsts(s: State, hn: nat, base: int, size: int, exec: int)
    requires ShapeOk(s) && CanAdd(s, hn, base, size)
    ensures Firsts(Added(s, hn, base, size, exec).cs, Added(s, hn, base, size, exec).g)
  {
    hide Linked, NoOverlap, Coalesced, BinnedIs, DvOk, RecordPlace, OldTop, RecordAt, SegsOk, Homes;
    var t := Added(s, hn, base, size, exec);
    RecordFits(s);
    forall k | k in t.g ensures t.g[k].base in t.cs && t.cs[t.g[k].base].home == k && t.cs[t.g[k].base].pin {
      if k in s.g {
        OldTopAt(s, s.g[k].base);
        AddedPlace(s, hn, base, size, s.g[k].base);
      }
    }
  }

  /** The chunks, but for the new top, are those of before, with the old top turned into a record and a loose rest. */
  lemma AddedChunk(s: State, hn: nat, base: int, size: int, exec: int, q: int)
    requires ShapeOk(s) && CanAdd(s, hn, base, size) && q in Added(s, hn, base, size, exec).cs
    ensures var c := Added(s, hn, base, size, exec).cs[q];
      if q == base then c == Chunk(size - TOP_FOOT_SIZE, true, Top, hn) && q !in s.cs
      else if q == RecordAt(s) then c.kind.Record? && (q !in s.cs || q == s.top)
      else q in s.cs && if q == s.top then c.kind.Loose? && c.pin else c == s.cs[q]
  {
    hide ShapeOk, OldTop, RecordAt;
    RecordFits(s);
    OldTopAt(s, q);
    AddedPlace(s, hn, base, size, q);
  }

  lemma StillThere(s: State, hn: nat, base: int, size: int, exec: int, q: int)
    requires ShapeOk(s) && CanAdd(s, hn, base, size) && q in s.cs && q != s.top
    ensures q in Added(s, hn, base, size, exec).cs && Added(s, hn, base, size, exec).cs[q] == s.cs[q]
  {
    hide ShapeOk, OldTop, RecordAt;
    RecordFits(s);
    OldTopAt(s, q);
    AddedPlace(s, hn, base, size, q);
  }

  lemma AddedRest(s: State, hn: nat, base: int, size: int, exec: int)
    requires ShapeOk(s) && CanAdd(s, hn, base, size)
    ensures var t := Added(s, hn, base, size, exec);
      Coalesced(t.cs) && BinnedIs(t.cs, t.b.bn) && DvOk(t.cs, t.dv, t.dvsize) &&
        TopOk(t.cs, t.g, t.order, t.top, t.topsize)
  {
    hide Tiling, RecordPlace, OldTop, RecordAt;
    var t := Added(s, hn, base, size, exec);
    TopPlace(s);
    forall q | q in t.cs
      ensures if q == base then t.cs[q] == Chunk(size - TOP_FOOT_SIZE, true, Top, hn) && q !in s.cs
              else if q == RecordAt(s) then t.cs[q].kind.Record? && (q !in s.cs || q == s.top)
              else q in s.cs && if q == s.top then t.cs[q].kind.Loose? && t.cs[q].pin else t.cs[q] == s.cs[q]
    {
      AddedChunk(s, hn, base, size, exec, q);
    }
    forall q | q in s.cs && q != s.top
      ensures q in t.cs && t.cs[q] == s.cs[q]
    {
      StillThere(s, hn, base, size, exec, q);
    }
  }

  lemma AddedRecords(s: State, hn: nat, base: int, size: int, exec: int)
    requires ShapeOk(s) && CanAdd(s, hn, base, size)
    ensures var t := Added(s, hn, base, size, exec); RecordPlace(t.cs, t.g, t.order)
  {
    hide Tiling, OldTop, RecordAt, Coalesced, BinnedIs, DvOk, TopOk, RecordIn;
    var t := Added(s, hn, base, size, exec);
    RecordFits(s);
    assert forall k :: 1 <= k < |t.order| ==> t.order[k] == s.order[k - 1];
    forall h | h in t.g ensures h in t.order {
      assert t.order[0] == hn;
      if h != hn {
        var j :| 0 <= j < |s.order| && s.order[j] == h;
        assert t.order[j + 1] == h;
      }
    }
    forall k | 1 <= k < |t.order| ensures RecordIn(t.cs, t.order[k], t.g[t.order[k]]) {
      AddedRecord(s, hn, base, size, exec, k);
    }
    forall p | p in t.cs && t.cs[p].kind.Record? ensures t.cs[p].home in t.g && t.g[t.cs[p].home].rec == p + 16 {
      AddedRecordHome(s, hn, base, size, exec, p);
    }
  }

  lemma AddedRecord(s: State, hn: nat, base: int, size: int, exec: int, k: int)
    requires ShapeOk(s) && CanAdd(s, hn, base, size) && 1 <= k <= |s.order| && s.order[k - 1] in s.g
    ensures var t := Added(s, hn, base, size, exec); RecordIn(t.cs, s.order[k - 1], t.g[s.order[k - 1]])
  {
    hide Tiling, OldTop, RecordAt, Coalesced, BinnedIs, DvOk, TopOk;
    RecordFits(s);
    if k == 1 {
      OldTopAt(s, RecordAt(s));
      AddedPlace(s, hn, base, size, RecordAt(s));
    } else {
      assert RecordIn(s.cs, s.order[k - 1], s.g[s.order[k - 1]]);
      var p := s.g[s.order[k - 1]].rec - 16;
      OldTopAt(s, p);
      AddedPlace(s, hn, base, size, p);
      TopPlace(s);
    }
  }

  lemma AddedRecordHome(s: State, hn: nat, base: int, size: int, exec: int, p: int)
    requires ShapeOk(s) && CanAdd(s, hn, base, size)
    requires var t := Added(s, hn, base, size, exec); p in t.cs && t.cs[p].kind.Record?
    ensures var t := Added(s, hn, base, size, exec); t.cs[p].home in t.g && t.g[t.cs[p].home].rec == p + 16
  {
    hide Tiling, OldTop, RecordAt, Coalesced, BinnedIs, DvOk, TopOk;
    RecordFits(s);
    OldTopAt(s, p);
    if p in s.cs && p != RecordAt(s) {
      OneChunkBase(s, p);
      WordsOfSegment(s, s.cs[p].home);
    }
  }

  lemma AddedShape(s: State, hn: nat, base: int, size: int, exec: int)
    requires ShapeOk(s) && CanAdd(s, hn, base, size)
    ensures ShapeOk(Added(s, hn, base, size, exec))
  {
    hide Tiling, RecordPlace, Coalesced, BinnedIs, DvOk, TopOk;
    AddedTiling(s, hn, base, size, exec);
    AddedRest(s, hn, base, size, exec);
    AddedRecords(s, hn, base, size, exec);
  }

  /** What adding a segment writes: the tags of the old top's remains, the record copied out of the embedded one, the
      fenceposts behind it, the new embedded record, and the new memory. */
  ghost predicate AddWrites(m: Mem, m': Mem, s: State, base: int, size: int, exec: int)
    requires HasTop(s)
  {
    var csp := RecordAt(s);
    var sg := s.g[s.order[0]];
    && W(m', base + HEAD) == size - TOP_FOOT_SIZE + PINUSE_BIT
    && W(m', base + size - TOP_FOOT_SIZE + HEAD) == TOP_FOOT_SIZE
    && W(m', csp + HEAD) == MkHead(SEGMENT_CHUNK, csp == s.top, true)
    && (csp != s.top ==> W(m', s.top + HEAD) == csp - s.top + PINUSE_BIT && W(m', csp) == csp - s.top)
    && W(m', csp + SEGMENT_CHUNK + HEAD) == FENCEPOST_HEAD
    && W(m', csp + 16 + SEG_BASE) == sg.base && W(m', csp + 16 + SEG_SIZE) == sg.size
    && W(m', csp + 16 + SEG_NEXT) == W(m, GM_SEG + SEG_NEXT) && W(m', csp + 16 + SEG_EXEC) == sg.exec
    && W(m', GM_SEG + SEG_BASE) == base && W(m', GM_SEG + SEG_SIZE) == size
    && W(m', GM_SEG + SEG_NEXT) == csp + 16 && W(m', GM_SEG + SEG_EXEC) == exec
    && forall a {:trigger W(m', a)} ::
      a != s.top + HEAD && !(csp + HEAD <= a < sg.base + sg.size) && (a != csp || csp == s.top)
      && !(GM_SEG <= a < GM_END) && !(base <= a < base + size)
      ==> W(m', a) == W(m, a)
  }

  /** The words of every chunk but top, and of the foot behind it, are not written. */
  lemma AddApart(m: Mem, m': Mem, s: State, hn: nat, base: int, size: int, exec: int, q: int, a: int)
    requires ShapeOk(s) && CanAdd(s, hn, base, size) && AddWrites(m, m', s, base, size, exec)
    requires q in s.cs && q != s.top && q <= a < q + s.cs[q].size + 8
    ensures W(m', a) == W(m, a)
  {
    hide W, Tiling, BinnedIs, DvOk, RecordPlace, Coalesced, TopOk, RecordAt;
    RecordFits(s);
    NoneNear(s, hn, base, size, q);
    OneChunkBase(s, q);
    OneChunk(s, q);
    WordsOfSegment(s, s.cs[q].home);
    WordsOfSegment(s, s.order[0]);
    SegsOf(s);
    if s.cs[q].home == s.order[0] {
      BeforeTop(s, q);
    }
  }

  /** Words of the other segments and of the bins are not written. */
  lemma AddFar(m: Mem, m': Mem, s: State, hn: nat, base: int, size: int, exec: int, a: int)
    requires ShapeOk(s) && CanAdd(s, hn, base, size) && AddWrites(m, m', s, base, size, exec)
    requires a < GM_SEG || exists k :: k in s.g && k != s.order[0] && s.g[k].base <= a < s.g[k].base + s.g[k].size
    ensures W(m', a) == W(m, a)
  {
    hide W, Tiling, BinnedIs, DvOk, RecordPlace, Coalesced, TopOk, RecordAt;
    RecordFits(s);
    WordsOfSegment(s, s.order[0]);
    SegsOf(s);
    if a >= GM_SEG {
      var k :| k in s.g && k != s.order[0] && s.g[k].base <= a < s.g[k].base + s.g[k].size;
      WordsOfSegment(s, k);
    }
  }

  lemma AddedTags(m: Mem, m': Mem, s: State, hn: nat, base: int, size: int, exec: int)
    requires HeapOk(m, s) && CanAdd(s, hn, base, size) && AddWrites(m, m', s, base, size, exec)
    ensures TagsOk(m', Added(s, hn, base, size, exec).cs)
  {
    hide W, Tiling, BinnedIs, DvOk, RecordPlace, Coalesced, TopOk, FencesOk, BinsOk, SegList, MappedOk, OldTop,
      RecordAt, MkHead, AddWrites;
    var t := Added(s, hn, base, size, exec);
    ShapeOf(m, s);
    RecordFits(s);
    forall q | q in t.cs
      ensures HeadOk(m', q, t.cs[q]) && FootOk(m', q, t.cs[q])
    {
      OldTopAt(s, q);
      AddedPlace(s, hn, base, size, q);
      if q == base || q == RecordAt(s) || q == s.top {
        AddedOwnTags(m, m', s, hn, base, size, exec, q);
      } else {
        TagsAt(m, s, q);
        AddApart(m, m', s, hn, base, size, exec, q, q + HEAD);
        AddApart(m, m', s, hn, base, size, exec, q, q + s.cs[q].size);
      }
    }
  }

  lemma AddedOwnTags(m: Mem, m': Mem, s: State, hn: nat, base: int, size: int, exec: int, q: int)
    requires ShapeOk(s) && CanAdd(s, hn, base, size) && AddWrites(m, m', s, base, size, exec)
    requires q == base || q == RecordAt(s) || q == s.top
    ensures var t := Added(s, hn, base, size, exec); q in t.cs && HeadOk(m', q, t.cs[q]) && FootOk(m', q, t.cs[q])
  {
    hide W, Tiling, BinnedIs, DvOk, RecordPlace, Coalesced, TopOk, OldTop, RecordAt;
    RecordFits(s);
    OldTopAt(s, q);
    AddedPlace(s, hn, base, size, q);
  }

  lemma AddedFences(m: Mem, m': Mem, s: State, hn: nat, base: int, size: int, exec: int)
    requires HeapOk(m, s) && CanAdd(s, hn, base, size) && AddWrites(m, m', s, base, size, exec)
    ensures FencesOk(m', Added(s, hn, base, size, exec).g)
  {
    hide W, Tiling, BinnedIs, DvOk, RecordPlace, Coalesced, TopOk, TagsOk, BinsOk, SegList, MappedOk, OldTop, RecordAt;
    var t := Added(s, hn, base, size, exec);
    ShapeOf(m, s);
    RecordFits(s);
    WordsOfSegment(s, s.order[0]);
    forall k | k in t.g
      ensures FenceOk(m', t.g[k])
    {
      if k in s.g && k != s.order[0] {
        assert FenceOk(m, s.g[k]);
        WordsOfSegment(s, k);
        AddFar(m, m', s, hn, base, size, exec, s.g[k].limit + HEAD);
      }
    }
  }

  lemma AddedBins(m: Mem, m': Mem, s: State, hn: nat, base: int, size: int, exec: int)
    requires HeapOk(m, s) && CanAdd(s, hn, base, size) && AddWrites(m, m', s, base, size, exec)
    ensures BinsOk(m', s.b)
  {
    hide W, Tiling, DvOk, RecordPlace, Coalesced, TagsOk, BinsOk, SegList, MappedOk, FencesOk, AddWrites;
    ShapeOf(m, s);
    forall a | SMALLBINS <= a < GM_SEG
      ensures W(m', a) == W(m, a)
    {
      AddFar(m, m', s, hn, base, size, exec, a);
    }
    forall p, a | p in s.b.bn && p + FD <= a < p + s.b.bn[p]
      ensures W(m', a) == W(m, a)
    {
      TopPlace(s);
      AddApart(m, m', s, hn, base, size, exec, p, a);
    }
    BinsFrame(m, m', s.b);
  }

  lemma AddedList(m: Mem, m': Mem, s: State, hn: nat, base: int, size: int, exec: int)
    requires HeapOk(m, s) && CanAdd(s, hn, base, size) && AddWrites(m, m', s, base, size, exec)
    ensures var t := Added(s, hn, base, size, exec);
      (forall j :: 0 <= j < |t.order| ==> t.order[j] in t.g) && SegList(m', t.g, t.order)
  {
    hide W, HeapOk, ShapeOk, RecordWords, AddWrites, OldTop, RecordAt, NextRec;
    var t := Added(s, hn, base, size, exec);
    OrderHere(m, s);
    forall k | 0 <= k < |t.order|
      ensures RecordWords(m', t.g[t.order[k]], NextRec(t.g, t.order, k))
    {
      AddedListed(m, m', s, hn, base, size, exec, k);
      assert Listed(m', t, k);
    }
  }

  lemma OrderHere(m: Mem, s: State)
    requires HeapOk(m, s)
    ensures ShapeOk(s) && forall j :: 0 <= j < |s.order| ==> s.order[j] in s.g
  {
    hide W, ShapeOk;
    ShapeOf(m, s);
    OrderIs(s);
  }

  /** Record k of the list is right. */
  ghost predicate Listed(m: Mem, t: State, k: nat) {
    k < |t.order| && (forall j :: 0 <= j < |t.order| ==> t.order[j] in t.g) &&
    RecordWords(m, t.g[t.order[k]], NextRec(t.g, t.order, k))
  }

  lemma AddedListed(m: Mem, m': Mem, s: State, hn: nat, base: int, size: int, exec: int, k: nat)
    requires HeapOk(m, s) && CanAdd(s, hn, base, size) && AddWrites(m, m', s, base, size, exec) && k <= |s.order|
    requires forall j :: 0 <= j < |s.order| ==> s.order[j] in s.g
    ensures Listed(m', Added(s, hn, base, size, exec), k)
  {
    hide W, ShapeOk, TagsOk, BinsOk, MappedOk, FencesOk, RecordWords, AddWrites, OldTop, RecordAt;
    ShapeOf(m, s);
    OrderIs(s);
    if k >= 1 {
      assert RecordWords(m, s.g[s.order[k - 1]], NextRec(s.g, s.order, k - 1));
    }
    if k >= 2 {
      AddedOther(m, m', s, hn, base, size, exec, k - 1, NextRec(s.g, s.order, k - 1));
    } else {
      AddedOwnRecords(m, m', s, hn, base, size, exec, NextRec(s.g, s.order, 0));
    }
  }

  lemma OrderIs(s: State)
    requires ShapeOk(s)
    ensures forall j :: 0 <= j < |s.order| ==> s.order[j] in s.g
    ensures forall j, k :: 0 <= j < k < |s.order| ==> s.order[j] != s.order[k]
  {
  }

  lemma AddedOther(m: Mem, m': Mem, s: State, hn: nat, base: int, size: int, exec: int, k: int, next: int)
    requires ShapeOk(s) && CanAdd(s, hn, base, size) && AddWrites(m, m', s, base, size, exec)
    requires 1 <= k < |s.order| && s.order[k] in s.g && RecordWords(m, s.g[s.order[k]], next)
    ensures RecordWords(m', s.g[s.order[k]], next)
  {
    hide W, Tiling, DvOk, Coalesced, TopOk, AddWrites, BinnedIs, RecordAt;
    assert RecordIn(s.cs, s.order[k], s.g[s.order[k]]);
    var p := s.g[s.order[k]].rec - 16;
    TopPlace(s);
    forall a | p + 16 <= a < p + 48
      ensures W(m', a) == W(m, a)
    {
      AddApart(m, m', s, hn, base, size, exec, p, a);
    }
  }

  lemma AddedOwnRecords(m: Mem, m': Mem, s: State, hn: nat, base: int, size: int, exec: int, next: int)
    requires ShapeOk(s) && CanAdd(s, hn, base, size) && AddWrites(m, m', s, base, size, exec)
    requires RecordWords(m, s.g[s.order[0]], next)
    ensures var t := Added(s, hn, base, size, exec);
      RecordWords(m', t.g[s.order[0]], next) && RecordWords(m', t.g[hn], RecordAt(s) + 16) &&
        t.g[s.order[0]].rec == RecordAt(s) + 16
  {
    hide W, Tiling, DvOk, Coalesced, BinnedIs, RecordPlace, OldTop, RecordAt;
    RecordFits(s);
  }

  lemma AddedKept(m: Mem, m': Mem, s: State, hn: nat, base: int, size: int, exec: int)
    requires ShapeOk(s) && CanAdd(s, hn, base, size) && AddWrites(m, m', s, base, size, exec)
    ensures Users(Added(s, hn, base, size, exec).cs) == Users(s.cs)
    ensures Kept(m, s, m', Added(s, hn, base, size, exec), Users(s.cs))
    ensures Pending(Added(s, hn, base, size, exec).cs) == Pending(s.cs) + (if RecordAt(s) == s.top then {} else {s.top})
  {
    hide W, ShapeOk, AddWrites, OldTop, RecordAt, Added;
    var t := Added(s, hn, base, size, exec);
    AddedKinds(s, hn, base, size, exec);
    forall q, a | q in Users(s.cs) && q + 16 <= a < q + Users(s.cs)[q] + 8
      ensures W(m', a) == W(m, a)
    {
      TopNotUser(s, q);
      AddApart(m, m', s, hn, base, size, exec, q, a);
    }
    forall q | q in Users(s.cs)
      ensures ExecOf(t, q) == ExecOf(s, q)
    {
      AddedExec(s, hn, base, size, exec, q);
    }
  }

  lemma TopNotUser(s: State, q: int)
    requires ShapeOk(s) && HasTop(s) && q in s.cs && s.cs[q].kind.User?
    ensures q != s.top
  {
    TopPlace(s);
  }

  lemma AddedExec(s: State, hn: nat, base: int, size: int, exec: int, q: int)
    requires ShapeOk(s) && CanAdd(s, hn, base, size) && q in Users(s.cs)
    ensures ExecOf(Added(s, hn, base, size, exec), q) == ExecOf(s, q)
  {
    hide W, Tiling, DvOk, RecordPlace, Coalesced, BinnedIs, OldTop, RecordAt;
    TopNotUser(s, q);
    StillThere(s, hn, base, size, exec, q);
    NoneNear(s, hn, base, size, q);
    OneChunkBase(s, q);
  }

  /** The blocks are the same, and only the rest of the old top is new among what waits for a place. */
  lemma AddedKinds(s: State, hn: nat, base: int, size: int, exec: int)
    requires ShapeOk(s) && CanAdd(s, hn, base, size)
    ensures Users(Added(s, hn, base, size, exec).cs) == Users(s.cs)
    ensures Pending(Added(s, hn, base, size, exec).cs) == Pending(s.cs) + (if RecordAt(s) == s.top then {} else {s.top})
  {
    hide ShapeOk, OldTop, RecordAt, Added;
    var t := Added(s, hn, base, size, exec);
    TopPlace(s);
    forall q | q in t.cs
      ensures if q == base then t.cs[q].kind.Top? && q !in s.cs
              else if q == RecordAt(s) then t.cs[q].kind.Record? && (q !in s.cs || q == s.top)
              else q in s.cs && if q == s.top then t.cs[q].kind.Loose? else t.cs[q] == s.cs[q]
    {
      AddedChunk(s, hn, base, size, exec, q);
    }
    forall q | q in s.cs && q != s.top
      ensures q in t.cs && t.cs[q] == s.cs[q]
    {
      StillThere(s, hn, base, size, exec, q);
    }
    RestThere(s, hn, base, size, exec);
  }

  lemma RestThere(s: State, hn: nat, base: int, size: int, exec: int)
    requires ShapeOk(s) && CanAdd(s, hn, base, size)
    ensures s.top in Added(s, hn, base, size, exec).cs
  {
    hide ShapeOk, RecordAt;
    OldTopAt(s, s.top);
  }

  /** Adding a segment gives a heap again, and the clients notice nothing. */
  lemma AddDone(m: Mem, m': Mem, s: State, hn: nat, base: int, size: int, exec: int)
    requires HeapOk(m, s) && CanAdd(s, hn, base, size) && AddWrites(m, m', s, base, size, exec)
    requires MappedOk(m', Added(s, hn, base, size, exec).g)
    ensures Unnoticed(m, s, m', Added(s, hn, base, size, exec))
    ensures Pending(Added(s, hn, base, size, exec).cs) == Pending(s.cs) + (if RecordAt(s) == s.top then {} else {s.top})
  {
    hide W, ShapeOk, TagsOk, FencesOk, BinsOk, SegList, MappedOk, CanAdd, AddWrites, RecordAt, OldTop;
    ShapeOf(m, s);
    AddedShape(s, hn, base, size, exec);
    AddedTags(m, m', s, hn, base, size, exec);
    AddedFences(m, m', s, hn, base, size, exec);
    AddedBins(m, m', s, hn, base, size, exec);
    AddedList(m, m', s, hn, base, size, exec);
    AddedKept(m, m', s, hn, base, size, exec);
  }

  // The first segment

  function Started(s: State, hn: nat, base: int, size: int, exec: int): State {
    s.(g := map[hn := Seg(base, size, base + size - TOP_FOOT_SIZE, exec, GM_SEG)],
       cs := map[base := Chunk(size - TOP_FOOT_SIZE, true, Top, hn)],
       order := [hn], top := base, topsize := size - TOP_FOOT_SIZE)
  }

  /** What the first call to sys_alloc writes: the embedded record, the bin headers, the tags of top, the new memory. */
  ghost predicate StartWrites(m: Mem, m': Mem, base: int, size: int, exec: int) {
    && W(m', base + HEAD) == size - TOP_FOOT_SIZE + PINUSE_BIT
    && W(m', base + size - TOP_FOOT_SIZE + HEAD) == TOP_FOOT_SIZE
    && W(m', GM_SEG + SEG_BASE) == base && W(m', GM_SEG + SEG_SIZE) == size
    && W(m', GM_SEG + SEG_NEXT) == W(m, GM_SEG + SEG_NEXT) && W(m', GM_SEG + SEG_EXEC) == exec
    && forall a {:trigger W(m', a)} ::
         !(SMALLBINS <= a < TREEBINS) && !(GM_SEG <= a < GM_END) && !(base <= a < base + size) ==>
       W(m', a) == W(m, a)
  }

  lemma NothingYet(s: State)
    requires ShapeOk(s) && s.order == []
    ensures (forall p :: p !in s.cs) && (forall h :: h !in s.g) && (forall p :: p !in s.b.bn) && s.dvsize == 0
    ensures s.dv == 0
  {
    hide Linked, NoOverlap, Firsts, Coalesced;
    assert forall h :: h in s.g ==> h in s.order;
  }

  lemma StartedShape(s: State, hn: nat, base: int, size: int, exec: int)
    requires ShapeOk(s) && s.order == [] && FreshPlace(s.g, hn, base, size)
    ensures ShapeOk(Started(s, hn, base, size, exec))
  {
    hide ShapeOk, TileOk, SegOk;
    NothingYet(s);
    NewSegOk(base, size, exec);
    NewTile(hn, base, size, exec);
    var t := Started(s, hn, base, size, exec);
    assert Tiling(t.cs, t.g);
    assert ShapeOk(t) by { StartedRest(s, hn, base, size, exec); }
  }

  lemma StartedRest(s: State, hn: nat, base: int, size: int, exec: int)
    requires (forall p :: p !in s.b.bn) && s.dvsize == 0 && s.dv == 0
    requires Tiling(Started(s, hn, base, size, exec).cs, Started(s, hn, base, size, exec).g)
    ensures ShapeOk(Started(s, hn, base, size, exec))
  {
    hide Tiling;
  }

  lemma EmptyBinsKept(m: Mem, m': Mem, b: BinState)
    requires BinsOk(m, b) && (forall p :: p !in b.bn)
    requires forall a {:trigger W(m', a)} :: TREEBINS <= a < GM_SEG ==> W(m', a) == W(m, a)
    ensures BinsOk(m', b)
  {
    hide W, TreeBin;
    forall i | 0 <= i < 32
      ensures SmallBin(m', b.smallmap, i, b.small[i], b.bn)
      ensures TreeBin(m', b.treemap, i, b.trees[i], b.bn)
    {
      assert SmallBin(m, b.smallmap, i, b.small[i], b.bn);
      EmptySmall(b.small[i], b.bn);
      EmptyTreeKept(m, m', b, i);
    }
  }

  lemma SomeMember(list: seq<int>) returns (q: int)
    requires list != []
    ensures q in list
  {
    q := list[0];
  }

  lemma EmptySmall(list: seq<int>, bn: map<int, int>)
    requires (forall p :: p !in bn) && forall p :: p in list ==> p in bn
    ensures list == []
  {
    if list != [] {
      var _ := SomeMember(list);
    }
  }

  lemma EmptyTreeKept(m: Mem, m': Mem, b: BinState, i: int)
    requires 0 <= i < 32 && |b.trees| == 32 && TreeBin(m, b.treemap, i, b.trees[i], b.bn) && (forall p :: p !in b.bn)
    requires W(m', TB(i)) == W(m, TB(i))
    ensures TreeBin(m', b.treemap, i, b.trees[i], b.bn)
  {
    hide W, TreeRep, TrieOk, TreeIndex;
    assert SameOn(m, m', Elems(b.trees[i]));
    TreeBinFrame(m, m', b.treemap, b.treemap, i, b.trees[i], b.bn, b.bn);
  }

  lemma StartedWords(m: Mem, m': Mem, s: State, hn: nat, base: int, size: int, exec: int)
    requires HeapOk(m, s) && s.order == [] && FreshPlace(s.g, hn, base, size) && StartWrites(m, m', base, size, exec)
    ensures var t := Started(s, hn, base, size, exec);
      TagsOk(m', t.cs) && FencesOk(m', t.g) && SegList(m', t.g, t.order)
  {
    hide W, BinsOk, Tiling, MappedOk;
  }

  /** The first segment makes a heap. */
  lemma StartDone(m: Mem, m': Mem, s: State, hn: nat, base: int, size: int, exec: int)
    requires HeapOk(m, s) && s.order == [] && FreshPlace(s.g, hn, base, size) && StartWrites(m, m', base, size, exec)
    requires MappedOk(m', Started(s, hn, base, size, exec).g)
    ensures Unnoticed(m, s, m', Started(s, hn, base, size, exec))
    ensures Pending(Started(s, hn, base, size, exec).cs) == Pending(s.cs)
  {
    hide W, ShapeOk, TagsOk, FencesOk, BinsOk, SegList, MappedOk;
    ShapeOf(m, s);
    NothingYet(s);
    StartedShape(s, hn, base, size, exec);
    StartedWords(m, m', s, hn, base, size, exec);
    EmptyBinsKept(m, m', s.b);
    var t := Started(s, hn, base, size, exec);
    assert forall p :: p !in Users(t.cs) && p !in Users(s.cs) && p !in Pending(t.cs) && p !in Pending(s.cs);
    assert Users(t.cs) == Users(s.cs);
  }
}
