/** A segment without blocks leaving the list and the address space. */
module SegDrop {
  import opened Bins
  import opened HeapKept
  import opened HeapMoves
  import opened HeapState
  import opened HeapTags
  import opened SegAdd
  import opened SegPrepend
  import opened SegTop
  import opened Tiles
  import opened Words

  /** Segment k of the list, not the first, holds nothing but one free chunk and its record. */
  ghost predicate Droppable(s: State, k: int) {
    && 1 <= k < |s.order| && s.order[k] in s.g && s.order[k - 1] in s.g
    && var sg := s.g[s.order[k]];
    sg.base in s.cs && s.cs[sg.base].kind.Loose? && s.cs[sg.base].home == s.order[k] &&
      sg.base + s.cs[sg.base].size == sg.rec - 16
  }

  /** The size test of release_unused_segments: a free first chunk that reaches the overhead at the end is followed by
      the record alone. */
  lemma OnlyRecord(s: State, k: int)
    requires ShapeOk(s) && 1 <= k < |s.order| && s.order[k] in s.g
    requires var sg := s.g[s.order[k]];
      sg.base in s.cs && !InUse(s.cs[sg.base].kind) && sg.base + s.cs[sg.base].size >= sg.base + sg.size - TOP_FOOT_SIZE
    ensures var sg := s.g[s.order[k]]; sg.base + s.cs[sg.base].size == sg.rec - 16 && s.cs[sg.base].home == s.order[k]
  {
    hide ShapeOk, Placed;
    var h := s.order[k];
    var p := s.g[h].base;
    RecordInSegment(s, k);
    WordsOfSegment(s, h);
    FirstsOf(s, h);
    NotTopIn(s, k);
    FreeNeighbour(s, p);
    OneChunk(s, p);
    var n := p + s.cs[p].size;
    OneChunk(s, n);
    SizeAtLeast(s, n);
  }

  lemma RecordInSegment(s: State, k: int)
    requires ShapeOk(s) && 1 <= k < |s.order| && s.order[k] in s.g
    ensures RecordIn(s.cs, s.order[k], s.g[s.order[k]])
  {
    hide Tiling, Coalesced, BinnedIs, DvOk, TopOk, RecordIn;
  }

  lemma FirstsOf(s: State, h: nat)
    requires ShapeOk(s) && h in s.g
    ensures s.g[h].base in s.cs && s.cs[s.g[h].base].home == h && s.cs[s.g[h].base].pin
  {
    hide Linked, Coalesced, BinnedIs, DvOk, NoOverlap, Homes, SegsOk, TopOk, RecordPlace;
  }

  lemma NotTopIn(s: State, k: int)
    requires ShapeOk(s) && 1 <= k < |s.order|
    ensures forall q :: q in s.cs && s.cs[q].home == s.order[k] ==> !s.cs[q].kind.Top?
  {
    hide Tiling, Coalesced, BinnedIs, DvOk;
  }

  lemma SizeAtLeast(s: State, p: int)
    requires ShapeOk(s) && p in s.cs && !s.cs[p].kind.Top?
    ensures s.cs[p].size >= MIN_CHUNK_SIZE
  {
    hide Linked, Coalesced, BinnedIs, DvOk, NoOverlap, Firsts, SegsOk, TopOk, RecordPlace;
  }

  function Skip(order: seq<nat>, k: int): seq<nat>
    requires 0 <= k < |order|
  {
    order[..k] + order[k + 1..]
  }

  function Dropped(s: State, k: int): State
    requires 0 <= k < |s.order| && s.order[k] in s.g
  {
    var h := s.order[k];
    s.(g := s.g - {h}, cs := s.cs - {s.g[h].base, s.g[h].rec - 16}, order := Skip(s.order, k))
  }

  /** The chunks of the dropped segment. */
  lemma DropChunks(s: State, k: int, q: int)
    requires ShapeOk(s) && Droppable(s, k) && q in s.cs
    ensures s.cs[q].home == s.order[k] <==> q == s.g[s.order[k]].base || q == s.g[s.order[k]].rec - 16
    ensures s.cs[q].home == s.order[k] ==> s.cs[q].kind.Loose? || s.cs[q].kind.Record?
  {
    hide Linked, Coalesced, BinnedIs, DvOk, TopOk, Firsts;
    var h := s.order[k];
    assert RecordIn(s.cs, h, s.g[h]);
    OneChunk(s, q);
    OneChunkBase(s, q);
  }

  lemma DroppedAt(s: State, k: int, q: int)
    requires ShapeOk(s) && Droppable(s, k)
    ensures q in Dropped(s, k).cs <==> q in s.cs && s.cs[q].home != s.order[k]
    ensures q in Dropped(s, k).cs ==> Dropped(s, k).cs[q] == s.cs[q]
  {
    hide ShapeOk;
    if q in s.cs {
      DropChunks(s, k, q);
    }
  }

  lemma DroppedTiling(s: State, k: int)
    requires ShapeOk(s) && Droppable(s, k)
    ensures Tiling(Dropped(s, k).cs, Dropped(s, k).g)
  {
    hide ShapeOk, SegOk, TileOk, NextOk, Dropped;
    var t := Dropped(s, k);
    DroppedSegs(s, k);
    forall q | q in t.cs ensures t.cs[q].home in t.g && TileOk(q, t.cs[q], t.g[t.cs[q].home]) {
      DroppedAt(s, k, q);
      HomeOf(s, q);
    }
    forall q | q in t.cs ensures NextOk(q, t.cs, t.g) {
      DroppedNext(s, k, q);
    }
    forall p, q | p in t.cs && q in t.cs && p < q ensures p + t.cs[p].size <= q {
      DroppedAt(s, k, p);
      DroppedAt(s, k, q);
      NoOverlapOf(s);
    }
    forall h | h in t.g ensures t.g[h].base in t.cs && t.cs[t.g[h].base].home == h && t.cs[t.g[h].base].pin {
      FirstsOf(s, h);
      DroppedAt(s, k, t.g[h].base);
    }
  }

  lemma HomeOf(s: State, q: int)
    requires ShapeOk(s) && q in s.cs
    ensures s.cs[q].home in s.g && TileOk(q, s.cs[q], s.g[s.cs[q].home])
  {
    hide Linked, Coalesced, BinnedIs, DvOk, NoOverlap, Firsts, SegsOk, TopOk, RecordPlace;
  }

  lemma DroppedSegs(s: State, k: int)
    requires ShapeOk(s) && Droppable(s, k)
    ensures SegsOk(Dropped(s, k).g)
    ensures forall h :: h in Dropped(s, k).g <==> h in s.g && h != s.order[k]
    ensures forall h :: h in Dropped(s, k).g ==> Dropped(s, k).g[h] == s.g[h]
  {
    hide Tiling, Coalesced, BinnedIs, DvOk, TopOk, RecordPlace, SegOk;
    SegsOf(s);
  }

  lemma DroppedNext(s: State, k: int, q: int)
    requires ShapeOk(s) && Droppable(s, k)
    requires q in Dropped(s, k).cs && Dropped(s, k).cs[q].home in Dropped(s, k).g
    ensures NextOk(q, Dropped(s, k).cs, Dropped(s, k).g)
  {
    hide ShapeOk, Dropped;
    DroppedAt(s, k, q);
    LinkedOf(s, q);
    DroppedSegs(s, k);
    DroppedAt(s, k, q + s.cs[q].size);
  }

  lemma DroppedRest(s: State, k: int)
    requires ShapeOk(s) && Droppable(s, k)
    ensures var t := Dropped(s, k);
      Coalesced(t.cs) && BinnedIs(t.cs, t.b.bn) && DvOk(t.cs, t.dv, t.dvsize) &&
        TopOk(t.cs, t.g, t.order, t.top, t.topsize)
  {
    hide Tiling, Dropped;
    var t := Dropped(s, k);
    forall q
      ensures q in t.cs <==> q in s.cs && s.cs[q].home != s.order[k]
      ensures q in t.cs ==> t.cs[q] == s.cs[q]
      ensures q in s.cs && s.cs[q].home == s.order[k] ==> s.cs[q].kind.Loose? || s.cs[q].kind.Record?
    {
      DroppedAt(s, k, q);
      if q in s.cs {
        DropChunks(s, k, q);
      }
    }
    DroppedSegs(s, k);
    DroppedFields(s, k);
  }

  lemma DroppedFields(s: State, k: int)
    requires ShapeOk(s) && Droppable(s, k)
    ensures var t := Dropped(s, k);
      t.order == Skip(s.order, k) && t.order != [] && t.order[0] == s.order[0] && s.order[0] != s.order[k]
    ensures var t := Dropped(s, k);
      t.b == s.b && t.dv == s.dv && t.dvsize == s.dvsize && t.top == s.top && t.topsize == s.topsize
  {
    OrderIs(s);
  }

  lemma SkipLength(order: seq<nat>, k: int)
    requires 0 <= k < |order|
    ensures |Skip(order, k)| == |order| - 1
  {
  }

  lemma SkipAt(order: seq<nat>, k: int, j: int)
    requires 0 <= k < |order| && 0 <= j < |Skip(order, k)|
    ensures |Skip(order, k)| == |order| - 1
    ensures Skip(order, k)[j] == if j < k then order[j] else order[j + 1]
  {
  }

  lemma DroppedRecords(s: State, k: int)
    requires ShapeOk(s) && Droppable(s, k)
    ensures RecordPlace(Dropped(s, k).cs, Dropped(s, k).g, Dropped(s, k).order)
  {
    hide ShapeOk, Dropped, Skip, RecordIn;
    var t := Dropped(s, k);
    DroppedFields(s, k);
    DroppedSegs(s, k);
    forall j | 0 <= j < |t.order|
      ensures t.order[j] in t.g && (j >= 1 ==> RecordIn(t.cs, t.order[j], t.g[t.order[j]])) {
      SkipAt(s.order, k, j);
      DroppedRecord(s, k, if j < k then j else j + 1);
    }
    forall i, j | 0 <= i < j < |t.order| ensures t.order[i] != t.order[j] {
      SkipAt(s.order, k, i);
      SkipAt(s.order, k, j);
      OrderIs(s);
    }
    forall h | h in t.g ensures h in t.order {
      DroppedKeepsOthers(s, k, h);
    }
    forall p | p in t.cs && t.cs[p].kind.Record? ensures t.cs[p].home in t.g && t.g[t.cs[p].home].rec == p + 16 {
      DroppedAt(s, k, p);
      RecordsAre(s, p);
    }
  }

  lemma DroppedKeepsOthers(s: State, k: int, h: nat)
    requires ShapeOk(s) && Droppable(s, k) && h in s.g && h != s.order[k]
    ensures h in Skip(s.order, k)
  {
    hide ShapeOk;
    OrderIn(s);
    var j :| 0 <= j < |s.order| && s.order[j] == h;
    assert |Skip(s.order, k)| == |s.order| - 1;
    SkipAt(s.order, k, if j < k then j else j - 1);
  }

  lemma DroppedRecord(s: State, k: int, j: int)
    requires ShapeOk(s) && Droppable(s, k) && 0 <= j < |s.order| && j != k
    ensures s.order[j] in Dropped(s, k).g
    ensures (j >= 1 ==> RecordIn(Dropped(s, k).cs, s.order[j], Dropped(s, k).g[s.order[j]]))
  {
    hide Tiling, Coalesced, BinnedIs, DvOk, TopOk, Dropped;
    OrderIs(s);
    DroppedSegs(s, k);
    if j >= 1 {
      assert RecordIn(s.cs, s.order[j], s.g[s.order[j]]);
      DroppedAt(s, k, s.g[s.order[j]].rec - 16);
    }
  }

  lemma RecordsAre(s: State, p: int)
    requires ShapeOk(s) && p in s.cs && s.cs[p].kind.Record?
    ensures s.cs[p].home in s.g && s.g[s.cs[p].home].rec == p + 16
  {
    hide Tiling, Coalesced, BinnedIs, DvOk, TopOk;
  }

  lemma DroppedShape(s: State, k: int)
    requires ShapeOk(s) && Droppable(s, k)
    ensures ShapeOk(Dropped(s, k))
  {
    hide Tiling, Coalesced, BinnedIs, DvOk, TopOk, RecordPlace, Dropped, Droppable;
    DroppedTiling(s, k);
    DroppedRest(s, k);
    DroppedRecords(s, k);
  }

  /** What dropping writes: the link of the record before, and the memory that goes away. */
  ghost predicate DropWrites(m: Mem, m': Mem, s: State, k: int)
    requires Droppable(s, k)
  {
    var sg := s.g[s.order[k]];
    var r := s.g[s.order[k - 1]].rec;
    && W(m', r + SEG_NEXT) == W(m, sg.rec + SEG_NEXT)
    && forall a {:trigger W(m', a)} :: a != r + SEG_NEXT && !(sg.base <= a < sg.base + sg.size) ==> W(m', a) == W(m, a)
  }

  /** Words of the other segments' chunks are not written, unless they are those of a record. */
  lemma DropApart(m: Mem, m': Mem, s: State, k: int, q: int, a: int)
    requires ShapeOk(s) && Droppable(s, k) && DropWrites(m, m', s, k)
    requires q in s.cs && s.cs[q].home != s.order[k] && q <= a < q + s.cs[q].size + 16
    requires (s.cs[q].kind.Record? ==> a < q + 16 || a >= q + 48)
    ensures W(m', a) == W(m, a)
  {
    hide W, Tiling, Coalesced, BinnedIs, DvOk, TopOk, RecordPlace;
    OneChunk(s, q);
    OneChunkBase(s, q);
    WordsOfSegment(s, s.cs[q].home);
    WordsOfSegment(s, s.order[k]);
    SegsOf(s);
    RecordOf(s, s.order[k - 1]);
    NoOverlapOf(s);
  }

  lemma DroppedTags(m: Mem, m': Mem, s: State, k: int)
    requires HeapOk(m, s) && Droppable(s, k) && DropWrites(m, m', s, k)
    ensures TagsOk(m', Dropped(s, k).cs)
  {
    hide W, ShapeOk, FencesOk, BinsOk, SegList, MappedOk, DropWrites, MkHead, Dropped, TagsOk;
    var t := Dropped(s, k);
    ShapeOf(m, s);
    forall q | q in t.cs
      ensures HeadOk(m', q, t.cs[q]) && FootOk(m', q, t.cs[q])
    {
      DroppedAt(s, k, q);
      TagsAt(m, s, q);
      DropApart(m, m', s, k, q, q + HEAD);
      if !InUse(s.cs[q].kind) {
        DropApart(m, m', s, k, q, q + s.cs[q].size);
      }
    }
    TagsFrom(m', t.cs);
  }

  lemma TagsFrom(m: Mem, cs: Chunks)
    requires forall q :: q in cs ==> HeadOk(m, q, cs[q]) && FootOk(m, q, cs[q])
    ensures TagsOk(m, cs)
  {
    hide W;
  }

  lemma DroppedFences(m: Mem, m': Mem, s: State, k: int)
    requires HeapOk(m, s) && Droppable(s, k) && DropWrites(m, m', s, k)
    ensures FencesOk(m', Dropped(s, k).g)
  {
    hide W, ShapeOk, TagsOk, BinsOk, SegList, MappedOk, DropWrites, Dropped;
    var t := Dropped(s, k);
    ShapeOf(m, s);
    DroppedSegs(s, k);
    forall h | h in t.g
      ensures FenceOk(m', t.g[h])
    {
      assert FenceOk(m, s.g[h]);
      DropBehind(m, m', s, k, h, s.g[h].limit + HEAD);
    }
  }

  /** Words of the overhead at the end of the other segments are not written. */
  lemma DropBehind(m: Mem, m': Mem, s: State, k: int, h: nat, a: int)
    requires ShapeOk(s) && Droppable(s, k) && DropWrites(m, m', s, k)
    requires h in s.g && h != s.order[k] && a == s.g[h].limit + HEAD
    ensures W(m', a) == W(m, a)
  {
    hide W, Tiling, Coalesced, BinnedIs, DvOk, TopOk;
    WordsOfSegment(s, h);
    WordsOfSegment(s, s.order[k]);
    WordsOfSegment(s, s.order[k - 1]);
    SegsOf(s);
    RecordHome(s, s.order[k - 1]);
    if k > 1 {
      assert RecordIn(s.cs, s.order[k - 1], s.g[s.order[k - 1]]);
    }
  }

  lemma DroppedBins(m: Mem, m': Mem, s: State, k: int)
    requires HeapOk(m, s) && Droppable(s, k) && DropWrites(m, m', s, k)
    ensures BinsOk(m', s.b)
  {
    hide W, Tiling, DvOk, RecordPlace, Coalesced, TopOk, TagsOk, BinsOk, SegList, MappedOk, FencesOk, DropWrites;
    ShapeOf(m, s);
    forall a | SMALLBINS <= a < GM_SEG
      ensures W(m', a) == W(m, a)
    {
      DropLow(m, m', s, k, a);
    }
    forall p, a | p in s.b.bn && p + FD <= a < p + s.b.bn[p]
      ensures W(m', a) == W(m, a)
    {
      DropChunks(s, k, p);
      DropApart(m, m', s, k, p, a);
    }
    BinsFrame(m, m', s.b);
  }

  lemma DropLow(m: Mem, m': Mem, s: State, k: int, a: int)
    requires ShapeOk(s) && Droppable(s, k) && DropWrites(m, m', s, k) && a < GM_SEG
    ensures W(m', a) == W(m, a)
  {
    hide W, Tiling, DvOk, RecordPlace, Coalesced, TopOk, BinnedIs;
    RecordHome(s, s.order[k - 1]);
    WordsOfSegment(s, s.order[k - 1]);
    WordsOfSegment(s, s.order[k]);
  }

  /** Records of the segments that stay, but for the link of the one before. */
  lemma DroppedRecordWords(m: Mem, m': Mem, s: State, k: int, j: int)
    requires ShapeOk(s) && Droppable(s, k) && DropWrites(m, m', s, k) && 0 <= j < |s.order| && j != k
    requires s.order[j] in s.g
    requires RecordWords(m, s.g[s.order[j]], W(m, s.g[s.order[j]].rec + SEG_NEXT))
    ensures RecordWords(m', s.g[s.order[j]], if j == k - 1 then W(m, s.g[s.order[k]].rec + SEG_NEXT)
                        else W(m, s.g[s.order[j]].rec + SEG_NEXT))
  {
    hide W, Tiling, DvOk, RecordPlace, Coalesced, TopOk, BinnedIs;
    OrderIs(s);
    RecordHome(s, s.order[k - 1]);
    RecordHome(s, s.order[j]);
    WordsOfSegment(s, s.order[k - 1]);
    WordsOfSegment(s, s.order[k]);
    WordsOfSegment(s, s.order[j]);
    SegsOf(s);
  }

  lemma NextAfter(m: Mem, s: State, j: int)
    requires HeapOk(m, s) && 0 <= j < |s.order|
    ensures s.order[j] in s.g && RecordWords(m, s.g[s.order[j]], W(m, s.g[s.order[j]].rec + SEG_NEXT))
    ensures W(m, s.g[s.order[j]].rec + SEG_NEXT) ==
      if j + 1 < |s.order| && s.order[j + 1] in s.g then s.g[s.order[j + 1]].rec else 0
    ensures j + 1 < |s.order| ==> s.order[j + 1] in s.g
  {
    hide W, ShapeOk, TagsOk, BinsOk, MappedOk, FencesOk;
    ShapeOf(m, s);
    OrderIn(s);
    assert RecordWords(m, s.g[s.order[j]], NextRec(s.g, s.order, j));
  }

  lemma DroppedOne(m: Mem, m': Mem, s: State, k: int, j: int)
    requires HeapOk(m, s) && Droppable(s, k) && DropWrites(m, m', s, k) && 0 <= j < |Skip(s.order, k)|
    requires forall i :: 0 <= i < |Skip(s.order, k)| ==> Skip(s.order, k)[i] in Dropped(s, k).g
    ensures RecordWords(m', Dropped(s, k).g[Skip(s.order, k)[j]], NextRec(Dropped(s, k).g, Skip(s.order, k), j))
  {
    hide W, HeapOk, ShapeOk, DropWrites, Dropped, Skip, RecordWords, SegsOk, NextRec;
    ShapeOf(m, s);
    DroppedSegs(s, k);
    SkipAt(s.order, k, j);
    var i := if j < k then j else j + 1;
    NextAfter(m, s, i);
    NextAfter(m, s, k);
    DroppedRecordWords(m, m', s, k, i);
    OrderIn(s);
    NextWithout(s, Dropped(s, k).g, k, i, j);
  }

  /** The list without segment k: what k pointed to now follows the one before it. */
  lemma NextWithout(s: State, g: Segs, k: int, i: int, j: int)
    requires 1 <= k < |s.order| && 0 <= j < |Skip(s.order, k)| && i == if j < k then j else j + 1
    requires forall l :: 0 <= l < |s.order| ==> s.order[l] in s.g
    requires forall l :: 0 <= l < |Skip(s.order, k)| ==> Skip(s.order, k)[l] in g && Skip(s.order, k)[l] in s.g
    requires forall h :: h in g && h in s.g ==> g[h] == s.g[h]
    ensures NextRec(g, Skip(s.order, k), j) ==
      if i == k - 1 then (if k + 1 < |s.order| then s.g[s.order[k + 1]].rec else 0)
      else if i + 1 < |s.order| then s.g[s.order[i + 1]].rec else 0
  {
    hide Skip;
    SkipAt(s.order, k, j);
    if j + 1 < |Skip(s.order, k)| {
      SkipAt(s.order, k, j + 1);
    }
  }

  lemma DroppedList(m: Mem, m': Mem, s: State, k: int)
    requires HeapOk(m, s) && Droppable(s, k) && DropWrites(m, m', s, k)
    ensures var t := Dropped(s, k); (forall j :: 0 <= j < |t.order| ==> t.order[j] in t.g) && SegList(m', t.g, t.order)
  {
    hide W, HeapOk, ShapeOk, DropWrites, Dropped, Skip, RecordWords;
    var t := Dropped(s, k);
    ShapeOf(m, s);
    DroppedFields(s, k);
    DroppedShape(s, k);
    OrderIn(t);
    forall j | 0 <= j < |t.order|
      ensures RecordWords(m', t.g[t.order[j]], NextRec(t.g, t.order, j))
    {
      DroppedOne(m, m', s, k, j);
    }
  }

  lemma DroppedKept(m: Mem, m': Mem, s: State, k: int)
    requires ShapeOk(s) && Droppable(s, k) && DropWrites(m, m', s, k)
    ensures Users(Dropped(s, k).cs) == Users(s.cs)
    ensures Kept(m, s, m', Dropped(s, k), Users(s.cs))
    ensures Pending(Dropped(s, k).cs) == Pending(s.cs) - {s.g[s.order[k]].base}
  {
    hide W, ShapeOk, DropWrites, Dropped;
    var t := Dropped(s, k);
    forall q
      ensures q in t.cs <==> q in s.cs && s.cs[q].home != s.order[k]
      ensures q in t.cs ==> t.cs[q] == s.cs[q]
      ensures q in s.cs && s.cs[q].home == s.order[k] ==>
        s.cs[q].kind.Record? || (s.cs[q].kind.Loose? && q == s.g[s.order[k]].base)
    {
      DroppedAt(s, k, q);
      if q in s.cs {
        DropChunks(s, k, q);
        if s.cs[q].home == s.order[k] {
          DroppedKinds(s, k, q);
        }
      }
    }
    forall q, a | q in Users(s.cs) && q + 16 <= a < q + Users(s.cs)[q] + 8
      ensures W(m', a) == W(m, a)
    {
      DropApart(m, m', s, k, q, a);
    }
    DroppedSegs(s, k);
  }

  lemma DroppedKinds(s: State, k: int, q: int)
    requires ShapeOk(s) && Droppable(s, k) && q in s.cs && s.cs[q].home == s.order[k]
    ensures s.cs[q].kind.Record? || q == s.g[s.order[k]].base
  {
    hide Tiling, DvOk, Coalesced, TopOk, BinnedIs;
    DropChunks(s, k, q);
    assert RecordIn(s.cs, s.order[k], s.g[s.order[k]]);
  }

  /** Dropping a segment gives a heap again, and the clients notice nothing. */
  lemma DropDone(m: Mem, m': Mem, s: State, k: int)
    requires HeapOk(m, s) && Droppable(s, k) && DropWrites(m, m', s, k) && MappedOk(m', Dropped(s, k).g)
    ensures Unnoticed(m, s, m', Dropped(s, k))
    ensures Pending(Dropped(s, k).cs) == Pending(s.cs) - {s.g[s.order[k]].base}
  {
    hide W, ShapeOk, TagsOk, FencesOk, BinsOk, SegList, MappedOk, Droppable, DropWrites, Dropped;
    ShapeOf(m, s);
    DroppedShape(s, k);
    DroppedTags(m, m', s, k);
    DroppedFences(m, m', s, k);
    DroppedBins(m, m', s, k);
    DroppedList(m, m', s, k);
    DroppedKept(m, m', s, k);
    DroppedFields(s, k);
  }
}
