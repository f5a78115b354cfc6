/** The moves every heap operation is made of: taking a chunk out of its bin, putting one into a bin, and
    redrawing an interval of chunks. */
module HeapSteps {
  import opened Bins
  import opened HeapState
  import opened Tiles
  import opened Words

  // Bin operations only reach link areas, so they leave tags, fences and records alone

  /** The chunks whose link areas may have changed are tiles of the heap. */
  ghost predicate TilesOf(all: map<int, int>, cs: Chunks) {
    forall p :: p in all ==> p in cs && cs[p].size == all[p] && !InUse(cs[p].kind)
  }

  lemma OutsideLinks(m: Mem, m': Mem, cs: Chunks, g: Segs, all: map<int, int>, a: int)
    requires Tiling(cs, g) && TilesOf(all, cs) && KeptOutside(m, m', all, all.Keys, SMALLBINS, GM_SEG)
    requires a >= GM_SEG
    requires forall q :: q in cs && !InUse(cs[q].kind) ==> a < q + 16 || a >= q + cs[q].size
    ensures W(m', a) == W(m, a)
  {
    hide W, Tiling;
  }

  /** Of the words from the segment record on, only the insides of free chunks have changed. */
  ghost predicate FreeWordsOnly(m: Mem, m': Mem, cs: Chunks) {
    forall a {:trigger W(m', a)} ::
      a >= GM_SEG && (forall q :: q in cs && !InUse(cs[q].kind) ==> a < q + 16 || a >= q + cs[q].size) ==>
        W(m', a) == W(m, a)
  }

  lemma OnlyFreeWords(m: Mem, m': Mem, cs: Chunks, g: Segs, all: map<int, int>)
    requires Tiling(cs, g) && TilesOf(all, cs) && KeptOutside(m, m', all, all.Keys, SMALLBINS, GM_SEG)
    ensures FreeWordsOnly(m, m', cs)
  {
    hide W, Tiling;
  }

  lemma TagsKept(m: Mem, m': Mem, cs: Chunks, g: Segs, all: map<int, int>)
    requires Tiling(cs, g) && TilesOf(all, cs) && KeptOutside(m, m', all, all.Keys, SMALLBINS, GM_SEG)
    requires TagsOk(m, cs)
    ensures TagsOk(m', cs)
  {
    hide W, KeptOutside, TilesOf, Tiling, MkHead;
    forall p | p in cs
      ensures HeadOk(m', p, cs[p]) && FootOk(m', p, cs[p])
    {
      WordsApart(cs, g, p);
      OutsideLinks(m, m', cs, g, all, p + HEAD);
      OutsideLinks(m, m', cs, g, all, p + cs[p].size);
      assert HeadOk(m, p, cs[p]) && FootOk(m, p, cs[p]);
    }
  }

  /** The tag words of a chunk are no words inside a free one. */
  lemma WordsApart(cs: Chunks, g: Segs, p: int)
    requires Tiling(cs, g) && p in cs
    ensures p >= GM_END && cs[p].size > 0
    ensures forall q :: q in cs && !InUse(cs[q].kind) ==> p + HEAD < q + 16 || p + HEAD >= q + cs[q].size
    ensures forall q :: q in cs && !InUse(cs[q].kind) ==> p + cs[p].size < q + 16 || p + cs[p].size >= q + cs[q].size
  {
    hide Linked, Firsts;
    assert SegOk(g[cs[p].home]);
  }

  lemma FencesKept(m: Mem, m': Mem, cs: Chunks, g: Segs, all: map<int, int>)
    requires Tiling(cs, g) && TilesOf(all, cs) && KeptOutside(m, m', all, all.Keys, SMALLBINS, GM_SEG)
    requires FencesOk(m, g)
    ensures FencesOk(m', g)
  {
    hide W, KeptOutside, TilesOf, Linked, Firsts, NoOverlap;
    forall h | h in g
      ensures FenceOk(m', g[h])
    {
      BeyondLimit(cs, g, h, g[h].limit + HEAD);
      OutsideLinks(m, m', cs, g, all, g[h].limit + HEAD);
    }
  }

  /** No tile reaches past the limit of its segment, nor into another segment. */
  lemma BeyondLimit(cs: Chunks, g: Segs, h: nat, a: int)
    requires Tiling(cs, g) && h in g && g[h].limit <= a < g[h].base + g[h].size
    ensures a >= GM_SEG
    ensures forall q :: q in cs ==> a < q || a >= q + cs[q].size
  {
    hide Linked, Firsts, NoOverlap;
    assert SegOk(g[h]);
    forall q | q in cs
      ensures a < q || a >= q + cs[q].size
    {
      assert SegOk(g[cs[q].home]);
    }
  }

  lemma RecordKept(m: Mem, m': Mem, cs: Chunks, g: Segs, order: seq<nat>, all: map<int, int>, k: int, next: int)
    requires Tiling(cs, g) && TilesOf(all, cs) && KeptOutside(m, m', all, all.Keys, SMALLBINS, GM_SEG)
    requires RecordPlace(cs, g, order) && 0 <= k < |order| && RecordWords(m, g[order[k]], next)
    requires k == 0 ==> g[order[k]].rec == GM_SEG
    ensures RecordWords(m', g[order[k]], next)
  {
    hide W, Firsts, KeptOutside, TilesOf, Linked;
    var r := g[order[k]].rec;
    forall a | r <= a < r + 32
      ensures W(m', a) == W(m, a)
    {
      RecordWordOutside(cs, g, order, k, a);
      OutsideLinks(m, m', cs, g, all, a);
    }
    assert r <= r + SEG_BASE < r + 32 && r <= r + SEG_SIZE < r + 32 && r <= r + SEG_NEXT < r + 32 &&
      r <= r + SEG_EXEC < r + 32;
  }

  lemma RecordWordOutside(cs: Chunks, g: Segs, order: seq<nat>, k: int, a: int)
    requires Tiling(cs, g) && RecordPlace(cs, g, order) && 0 <= k < |order|
    requires k == 0 ==> g[order[k]].rec == GM_SEG
    requires g[order[k]].rec <= a < g[order[k]].rec + 32
    ensures a >= GM_SEG
    ensures forall q :: q in cs && !InUse(cs[q].kind) ==> a < q + 16 || a >= q + cs[q].size
  {
    hide Linked, Firsts;
    var s := g[order[k]];
    if k > 0 {
      assert RecordIn(cs, order[k], s);
      var p := s.rec - 16;
      if a >= s.limit {
        BeyondLimit(cs, g, order[k], a);
      }
    }
  }

  lemma ListKept(m: Mem, m': Mem, s: State, all: map<int, int>)
    requires ShapeOk(s) && SegList(m, s.g, s.order) && TilesOf(all, s.cs)
    requires KeptOutside(m, m', all, all.Keys, SMALLBINS, GM_SEG)
    ensures SegList(m', s.g, s.order)
  {
    hide W, Tiling, RecordWords, BinnedIs, DvOk, Coalesced, TilesOf;
    if s.order == [] {
      AllAbove(s.cs, s.g, all);
      StaticKept(m, m', all);
    }
    forall k | 0 <= k < |s.order|
      ensures RecordWords(m', s.g[s.order[k]], NextRec(s.g, s.order, k))
    {
      RecordKept(m, m', s.cs, s.g, s.order, all, k, NextRec(s.g, s.order, k));
    }
  }

  lemma AllAbove(cs: Chunks, g: Segs, all: map<int, int>)
    requires Tiling(cs, g) && TilesOf(all, cs)
    ensures forall p :: p in all ==> p >= GM_END
  {
    hide Linked, Firsts, NoOverlap;
  }

  lemma StaticKept(m: Mem, m': Mem, all: map<int, int>)
    requires KeptOutside(m, m', all, all.Keys, SMALLBINS, GM_SEG)
    requires forall p :: p in all ==> p >= GM_END
    ensures forall a :: GM_SEG <= a < GM_END ==> W(m', a) == W(m, a)
  {
    hide W;
  }

  // Changing the kind of a free chunk

  function Rekind(cs: Chunks, p: int, k: Kind): Chunks
    requires p in cs
  {
    cs[p := cs[p].(kind := k)]
  }

  predicate FreeKind(k: Kind) {
    k.Binned? || k.Dv? || k.Loose?
  }

  lemma RekindTiling(cs: Chunks, g: Segs, p: int, k: Kind)
    requires Tiling(cs, g) && p in cs && FreeKind(cs[p].kind) && FreeKind(k)
    ensures Tiling(Rekind(cs, p, k), g)
  {
    hide NextOk, Rekind, FreeKind, Linked, NoOverlap, Firsts, SegsOk, Homes;
    TilingParts(cs, g);
    RekindHomes(cs, g, p, k);
    RekindFirsts(cs, g, p, k);
    var cs' := Rekind(cs, p, k);
    forall q | q in cs'
      ensures NextOk(q, cs', g)
    {
      RekindNext(cs, g, p, k, q);
    }
    AllLinked(cs', g);
  }

  lemma AllLinked(cs: Chunks, g: Segs)
    requires Homes(cs, g) && forall q :: q in cs ==> cs[q].home in g && NextOk(q, cs, g)
    ensures Linked(cs, g)
  {
    hide NextOk, TileOk;
  }

  lemma RekindHomes(cs: Chunks, g: Segs, p: int, k: Kind)
    requires Homes(cs, g) && p in cs && FreeKind(cs[p].kind) && FreeKind(k)
    ensures Homes(Rekind(cs, p, k), g)
    ensures forall q :: q in Rekind(cs, p, k) <==> q in cs
    ensures forall q :: q in Rekind(cs, p, k) ==> Rekind(cs, p, k)[q].home in g
  {
  }

  lemma RekindFirsts(cs: Chunks, g: Segs, p: int, k: Kind)
    requires NoOverlap(cs) && Firsts(cs, g) && p in cs
    ensures NoOverlap(Rekind(cs, p, k)) && Firsts(Rekind(cs, p, k), g)
  {
  }

  lemma RekindNext(cs: Chunks, g: Segs, p: int, k: Kind, q: int)
    requires Tiling(cs, g) && p in cs && q in cs && FreeKind(cs[p].kind) && FreeKind(k)
    ensures NextOk(q, Rekind(cs, p, k), g)
  {
    hide SegsOk, Firsts, NoOverlap;
    assert NextOk(q, cs, g);
  }

  lemma RekindRest(m: Mem, s: State, p: int, k: Kind)
    requires ShapeOk(s) && p in s.cs && FreeKind(s.cs[p].kind) && FreeKind(k)
    ensures Coalesced(Rekind(s.cs, p, k)) && RecordPlace(Rekind(s.cs, p, k), s.g, s.order)
    ensures TopOk(Rekind(s.cs, p, k), s.g, s.order, s.top, s.topsize)
    ensures !s.cs[p].kind.Dv? && !k.Dv? ==> DvOk(Rekind(s.cs, p, k), s.dv, s.dvsize)
  {
    hide Tiling, Coalesced, BinnedIs, DvOk, TopOk, RecordPlace, Rekind, FreeKind;
    RekindCoalesced(s.cs, p, k);
    RekindRecords(s, p, k);
    RekindTop(s, p, k);
    if !s.cs[p].kind.Dv? && !k.Dv? {
      RekindVictim(s, p, k);
    }
  }

  lemma RekindCoalesced(cs: Chunks, p: int, k: Kind)
    requires Coalesced(cs) && p in cs && FreeKind(cs[p].kind) && FreeKind(k)
    ensures Coalesced(Rekind(cs, p, k))
  {
  }

  lemma RekindRecords(s: State, p: int, k: Kind)
    requires RecordPlace(s.cs, s.g, s.order) && p in s.cs && FreeKind(s.cs[p].kind) && FreeKind(k)
    ensures RecordPlace(Rekind(s.cs, p, k), s.g, s.order)
  {
  }

  lemma RekindTop(s: State, p: int, k: Kind)
    requires TopOk(s.cs, s.g, s.order, s.top, s.topsize) && p in s.cs && FreeKind(s.cs[p].kind) && FreeKind(k)
    ensures TopOk(Rekind(s.cs, p, k), s.g, s.order, s.top, s.topsize)
  {
  }

  lemma RekindVictim(s: State, p: int, k: Kind)
    requires DvOk(s.cs, s.dv, s.dvsize) && p in s.cs && !s.cs[p].kind.Dv? && !k.Dv?
    ensures DvOk(Rekind(s.cs, p, k), s.dv, s.dvsize)
  {
  }

  lemma RekindTags(m: Mem, cs: Chunks, p: int, k: Kind)
    requires TagsOk(m, cs) && p in cs && FreeKind(cs[p].kind) && FreeKind(k)
    ensures TagsOk(m, Rekind(cs, p, k))
  {
    hide W;
  }

  /** A bin operation on memory and bins, together with the matching change of one chunk's kind. */
  lemma BinMove(m: Mem, m': Mem, s: State, b': BinState, p: int, k: Kind, all: map<int, int>)
    requires HeapOk(m, s) && p in s.cs && FreeKind(s.cs[p].kind) && FreeKind(k) && !s.cs[p].kind.Dv? && !k.Dv?
    requires TilesOf(all, s.cs) && KeptOutside(m, m', all, all.Keys, SMALLBINS, GM_SEG) && m'.Keys == m.Keys
    requires BinsOk(m', b') && BinnedIs(Rekind(s.cs, p, k), b'.bn)
    ensures HeapOk(m', s.(b := b', cs := Rekind(s.cs, p, k))) && FreeWordsOnly(m, m', s.cs)
  {
    hide W, FreeWordsOnly, Tiling, TagsOk, FencesOk, BinsOk, SegList, KeptOutside, TilesOf, BinnedIs, DvOk, TopOk,
      RecordPlace, Coalesced, Rekind;
    OnlyFreeWords(m, m', s.cs, s.g, all);
    TagsKept(m, m', s.cs, s.g, all);
    FencesKept(m, m', s.cs, s.g, all);
    ListKept(m, m', s, all);
    RekindTiling(s.cs, s.g, p, k);
    RekindRest(m', s, p, k);
    RekindTags(m', s.cs, p, k);
  }

  /** Taking chunk p out of its bin. */
  lemma UnbinStep(m: Mem, m': Mem, s: State, b': BinState, p: int)
    requires HeapOk(m, s) && p in s.cs && s.cs[p].kind.Binned? && m'.Keys == m.Keys
    requires KeptOutside(m, m', s.b.bn, s.b.bn.Keys, SMALLBINS, GM_SEG)
    requires BinsOk(m', b') && b'.bn == s.b.bn - {p}
    ensures HeapOk(m', s.(b := b', cs := Rekind(s.cs, p, Loose))) && FreeWordsOnly(m, m', s.cs)
  {
    hide W, HeapOk, BinsOk, KeptOutside, FreeWordsOnly;
    assert BinnedIs(s.cs, s.b.bn) by { BinnedOf(m, s); }
    BinMove(m, m', s, b', p, Loose, s.b.bn);
  }

  lemma BinnedOf(m: Mem, s: State)
    requires HeapOk(m, s)
    ensures BinnedIs(s.cs, s.b.bn)
  {
  }

  /** Putting loose chunk p into its bin. */
  lemma BinStep(m: Mem, m': Mem, s: State, b': BinState, p: int)
    requires HeapOk(m, s) && p in s.cs && s.cs[p].kind.Loose? && m'.Keys == m.Keys
    requires var all := s.b.bn[p := s.cs[p].size]; KeptOutside(m, m', all, all.Keys, SMALLBINS, GM_SEG)
    requires BinsOk(m', b') && b'.bn == s.b.bn[p := s.cs[p].size]
    ensures HeapOk(m', s.(b := b', cs := Rekind(s.cs, p, Binned))) && FreeWordsOnly(m, m', s.cs)
  {
    hide W, HeapOk, BinsOk, KeptOutside, FreeWordsOnly;
    assert BinnedIs(s.cs, s.b.bn) by { BinnedOf(m, s); }
    BinMove(m, m', s, b', p, Binned, s.b.bn[p := s.cs[p].size]);
  }

  // Redrawing an interval

  /** Kinds of chunks that operations split and join. */
  predicate Movable(k: Kind) {
    k.User? || k.Dv? || k.Top? || k.Loose? || k.Fresh?
  }

  ghost predicate ClearInterval(cs: Chunks, lo: int, hi: int) {
    forall p :: p in cs && lo <= p < hi ==> Movable(cs[p].kind)
  }

  /** The heap after [lo, hi) has been redrawn: dv and top follow their chunks. */
  function CarveState(s: State, lo: int, mid: int, hi: int, k1: Kind, k2: Kind): State
    requires lo in s.cs
  {
    var split := mid < hi;
    var inside := lo <= s.dv < hi;
    s.(cs := Carve(s.cs, lo, mid, hi, k1, k2),
       dv := if k1.Dv? then lo else if split && k2.Dv? then mid else if inside then 0 else s.dv,
       dvsize := if k1.Dv? then mid - lo else if split && k2.Dv? then hi - mid else if inside then 0 else s.dvsize,
       top := if k1.Top? then lo else if split && k2.Top? then mid else s.top,
       topsize := if k1.Top? then mid - lo else if split && k2.Top? then hi - mid else s.topsize)
  }

  /** When the interval may be redrawn so: at most one new victim, replacing the old one if it is elsewhere
      there must be none; top stays top, at the end of its segment. */
  ghost predicate CarveOk(s: State, lo: int, mid: int, hi: int, k1: Kind, k2: Kind) {
    && CanCarve(s.cs, s.g, lo, mid, hi, k1, k2) && ClearInterval(s.cs, lo, hi) && Movable(k1)
    && (mid < hi ==> Movable(k2))
    && (InUse(k1) || s.cs[lo].pin)
    && (mid < hi ==> InUse(k1) || InUse(k2))
    && (hi in s.cs ==> InUse(s.cs[hi].kind) || InUse(if mid < hi then k2 else k1))
    && (k1.Dv? || (mid < hi && k2.Dv?) ==> s.dvsize == 0 || lo <= s.dv < hi)
    && s.order != []
    && ((k1.Top? && mid == hi) || (mid < hi && k2.Top?) <==> lo <= s.top < hi)
    && (k1.Top? ==> mid == hi)
  }

  lemma CarveDv(s: State, lo: int, mid: int, hi: int, k1: Kind, k2: Kind)
    requires ShapeOk(s) && CarveOk(s, lo, mid, hi, k1, k2)
    ensures var t := CarveState(s, lo, mid, hi, k1, k2); DvOk(t.cs, t.dv, t.dvsize)
  {
    hide Carve, Tiling, Coalesced, BinnedIs, RecordPlace, TopOk;
    var t := CarveState(s, lo, mid, hi, k1, k2);
    DvPositive(s);
    CarveAt(s.cs, lo, mid, hi, k1, k2, t.dv);
    forall p | p in t.cs && t.cs[p].kind.Dv?
      ensures p == t.dv
    {
      CarveAt(s.cs, lo, mid, hi, k1, k2, p);
    }
  }

  lemma DvPositive(s: State)
    requires ShapeOk(s)
    ensures forall p :: p in s.cs ==> p >= GM_END && s.cs[p].size > 0 && p + s.cs[p].size <= s.g[s.cs[p].home].limit
    ensures forall h :: h in s.g ==> s.g[h].limit < s.g[h].base + s.g[h].size
    ensures forall p :: p in s.cs ==> s.cs[p].home in s.g
  {
    hide Linked, Firsts, NoOverlap, Coalesced, BinnedIs, RecordPlace, TopOk, DvOk;
    forall p | p in s.cs ensures p >= GM_END {
      assert SegOk(s.g[s.cs[p].home]);
    }
    forall h | h in s.g ensures s.g[h].limit < s.g[h].base + s.g[h].size {
      assert SegOk(s.g[h]);
    }
  }

  lemma CarveTop(s: State, lo: int, mid: int, hi: int, k1: Kind, k2: Kind)
    requires ShapeOk(s) && CarveOk(s, lo, mid, hi, k1, k2)
    ensures var t := CarveState(s, lo, mid, hi, k1, k2); TopOk(t.cs, t.g, t.order, t.top, t.topsize)
  {
    hide Carve, Coalesced, BinnedIs, RecordPlace, DvOk, Linked, Firsts, SegsOk;
    var t := CarveState(s, lo, mid, hi, k1, k2);
    CarveAt(s.cs, lo, mid, hi, k1, k2, t.top);
    if lo <= s.top < hi {
      TopEnds(s, lo, hi);
    }
    forall p | p in t.cs && t.cs[p].kind.Top?
      ensures p == t.top
    {
      CarveAt(s.cs, lo, mid, hi, k1, k2, p);
    }
  }

  /** An interval that holds top ends where top does, in the same segment. */
  lemma TopEnds(s: State, lo: int, hi: int)
    requires ShapeOk(s) && lo in s.cs && s.order != [] && lo <= s.top < hi && s.cs[lo].home in s.g
    requires hi in s.cs || hi == s.g[s.cs[lo].home].limit
    requires hi <= s.g[s.cs[lo].home].limit
    ensures hi == s.top + s.topsize && s.cs[lo].home == s.order[0]
  {
  }

  lemma CarveBinned(cs: Chunks, bn: map<int, int>, lo: int, mid: int, hi: int, k1: Kind, k2: Kind)
    requires BinnedIs(cs, bn) && lo in cs && lo < mid <= hi && ClearInterval(cs, lo, hi) && Movable(k1)
    requires (mid < hi ==> Movable(k2))
    ensures BinnedIs(Carve(cs, lo, mid, hi, k1, k2), bn)
  {
    hide Carve;
    var cs' := Carve(cs, lo, mid, hi, k1, k2);
    forall p | p in cs' || p in bn
      ensures p in bn <==> p in cs' && cs'[p].kind.Binned?
      ensures p in bn && p in cs' ==> cs'[p].size == bn[p]
    {
      CarveAt(cs, lo, mid, hi, k1, k2, p);
    }
  }

  lemma CarveRecords(s: State, lo: int, mid: int, hi: int, k1: Kind, k2: Kind)
    requires ShapeOk(s) && CanCarve(s.cs, s.g, lo, mid, hi, k1, k2) && ClearInterval(s.cs, lo, hi) && Movable(k1)
    requires (mid < hi ==> Movable(k2))
    ensures RecordPlace(Carve(s.cs, lo, mid, hi, k1, k2), s.g, s.order)
  {
    hide Carve, Coalesced, BinnedIs, DvOk, TopOk, Tiling;
    var cs' := Carve(s.cs, lo, mid, hi, k1, k2);
    forall k | 1 <= k < |s.order|
      ensures RecordIn(cs', s.order[k], s.g[s.order[k]])
    {
      assert RecordIn(s.cs, s.order[k], s.g[s.order[k]]);
      CarveAt(s.cs, lo, mid, hi, k1, k2, s.g[s.order[k]].rec - 16);
    }
    forall p | p in cs' && cs'[p].kind.Record?
      ensures cs'[p].home in s.g && s.g[cs'[p].home].rec == p + 16
    {
      CarveAt(s.cs, lo, mid, hi, k1, k2, p);
    }
  }

  /** Tag words are no link words. */
  lemma TagsMissLinks(m: Mem, m': Mem, s: State, lo: int, mid: int, hi: int)
    requires Tiling(s.cs, s.g) && BinnedIs(s.cs, s.b.bn) && OnlyTags(m, m', lo, mid, hi)
    requires lo in s.cs && lo < mid <= hi && ClearInterval(s.cs, lo, hi)
    ensures SameBinWords(m, m', s.b.bn)
  {
    hide W, Linked, Firsts;
    assert lo >= GM_END;
  }

  lemma RecordWordsSame(m: Mem, m': Mem, lo: int, mid: int, hi: int, g: Seg, next: int)
    requires OnlyTags(m, m', lo, mid, hi) && lo < mid <= hi && (g.rec + 32 <= lo || hi + HEAD < g.rec)
    requires RecordWords(m, g, next)
    ensures RecordWords(m', g, next)
  {
    hide W;
  }

  lemma TagsMissRecord(m: Mem, m': Mem, s: State, lo: int, mid: int, hi: int, k: int, next: int)
    requires ShapeOk(s) && OnlyTags(m, m', lo, mid, hi) && 0 <= k < |s.order|
    requires lo in s.cs && lo < mid <= hi && ClearInterval(s.cs, lo, hi) && s.cs[lo].home in s.g
    requires hi <= s.g[s.cs[lo].home].limit
    requires hi in s.cs || hi == s.g[s.cs[lo].home].limit
    requires RecordWords(m, s.g[s.order[k]], next)
    ensures RecordWords(m', s.g[s.order[k]], next)
  {
    hide W, OnlyTags, RecordWords, Coalesced, BinnedIs, DvOk, Tiling;
    if k > 0 {
      RecordFar(s, lo, hi, k);
    } else {
      DvPositive(s);
    }
    RecordWordsSame(m, m', lo, mid, hi, s.g[s.order[k]], next);
  }

  /** The words of a record in memory lie beyond a cleared interval's boundary tags, or before them. */
  lemma RecordFar(s: State, lo: int, hi: int, k: int)
    requires ShapeOk(s) && 1 <= k < |s.order|
    requires lo in s.cs && lo < hi && ClearInterval(s.cs, lo, hi) && s.cs[lo].home in s.g
    requires hi <= s.g[s.cs[lo].home].limit
    requires hi in s.cs || hi == s.g[s.cs[lo].home].limit
    ensures s.order[k] in s.g
    ensures var r := s.g[s.order[k]].rec; r + 32 <= lo || hi + HEAD < r
  {
    hide ShapeOk, Movable;
    RecordChunk(s, k);
    var p := s.g[s.order[k]].rec - 16;
    NotBetween(s, lo, hi, p);
  }

  /** The chunk of a record is the last of its segment. */
  ghost predicate LastRecord(s: State, p: int) {
    && p in s.cs && s.cs[p].kind.Record? && s.cs[p].size == SEGMENT_CHUNK
    && s.cs[p].home in s.g && s.g[s.cs[p].home].limit == p + SEGMENT_CHUNK
  }

  lemma RecordChunk(s: State, k: int)
    requires ShapeOk(s) && 1 <= k < |s.order|
    ensures s.order[k] in s.g
    ensures var p := s.g[s.order[k]].rec - 16; LastRecord(s, p)
  {
    hide Tiling, Coalesced, BinnedIs, DvOk, TopOk;
    assert RecordIn(s.cs, s.order[k], s.g[s.order[k]]);
  }

  /** A record's chunk lies before or behind what is redrawn. */
  lemma NotBetween(s: State, lo: int, hi: int, p: int)
    requires ShapeOk(s) && LastRecord(s, p)
    requires lo in s.cs && lo < hi && ClearInterval(s.cs, lo, hi) && s.cs[lo].home in s.g
    requires hi <= s.g[s.cs[lo].home].limit
    requires hi in s.cs || hi == s.g[s.cs[lo].home].limit
    ensures p + 48 <= lo || hi + HEAD < p + 16
  {
    hide Coalesced, BinnedIs, DvOk, TopOk, RecordPlace, Linked, Firsts;
    assert SegOk(s.g[s.cs[p].home]) && SegOk(s.g[s.cs[lo].home]);
    assert TileOk(lo, s.cs[lo], s.g[s.cs[lo].home]);
  }

  lemma CarveList(m: Mem, m': Mem, s: State, lo: int, mid: int, hi: int)
    requires ShapeOk(s) && OnlyTags(m, m', lo, mid, hi) && SegList(m, s.g, s.order) && s.order != []
    requires lo in s.cs && lo < mid <= hi && ClearInterval(s.cs, lo, hi) && s.cs[lo].home in s.g
    requires hi <= s.g[s.cs[lo].home].limit
    requires hi in s.cs || hi == s.g[s.cs[lo].home].limit
    ensures SegList(m', s.g, s.order)
  {
    hide W, Tiling, RecordWords, BinnedIs, DvOk, Coalesced, OnlyTags;
    forall k | 0 <= k < |s.order|
      ensures RecordWords(m', s.g[s.order[k]], NextRec(s.g, s.order, k))
    {
      TagsMissRecord(m, m', s, lo, mid, hi, k, NextRec(s.g, s.order, k));
    }
  }

  /** Redrawing an interval and writing its tags gives a heap again. */
  lemma CarveStep(m: Mem, m': Mem, s: State, lo: int, mid: int, hi: int, k1: Kind, k2: Kind)
    requires HeapOk(m, s) && CarveOk(s, lo, mid, hi, k1, k2) && m'.Keys == m.Keys
    requires OnlyTags(m, m', lo, mid, hi) && NewTags(m', s.cs, lo, mid, hi, k1, k2)
    requires hi == s.g[s.cs[lo].home].limit ==> W(m', hi + HEAD) == W(m, hi + HEAD)
    ensures HeapOk(m', CarveState(s, lo, mid, hi, k1, k2))
  {
    hide W, Carve, OnlyTags, NewTags, FencesOk, BinsOk, SegList, Tiling, BinnedIs, RecordPlace, DvOk, TopOk, Coalesced,
      TagsOk, CanCarve;
    CarveFacts(s, lo, mid, hi, k1, k2);
    CarveTiling(s.cs, s.g, lo, mid, hi, k1, k2);
    CarveCoalesced(s.cs, s.g, lo, mid, hi, k1, k2);
    CarveBinned(s.cs, s.b.bn, lo, mid, hi, k1, k2);
    CarveDv(s, lo, mid, hi, k1, k2);
    CarveTop(s, lo, mid, hi, k1, k2);
    CarveRecords(s, lo, mid, hi, k1, k2);
    CarveTags(m, m', s.cs, s.g, lo, mid, hi, k1, k2);
    CarveFences(m, m', s.cs, s.g, lo, mid, hi);
    TagsMissLinks(m, m', s, lo, mid, hi);
    BinsFrame(m, m', s.b);
    CarveList(m, m', s, lo, mid, hi);
  }

  lemma CarveFacts(s: State, lo: int, mid: int, hi: int, k1: Kind, k2: Kind)
    requires CarveOk(s, lo, mid, hi, k1, k2)
    ensures lo in s.cs && lo < mid <= hi && s.cs[lo].home in s.g && hi <= s.g[s.cs[lo].home].limit
    ensures hi in s.cs || hi == s.g[s.cs[lo].home].limit
  {
  }
}
