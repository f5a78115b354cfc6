/** Segments of memory, and the chunks that tile them. */
module Tiles {
  import opened Words

  /** What a chunk is: handed out, holding a segment record, in a bin, the designated victim, the top chunk,
      free and on its way between those, or memory just obtained that has no tags yet. */
  datatype Kind = User | Record | Binned | Dv | Top | Loose | Fresh

  predicate InUse(k: Kind) {
    k.User? || k.Record? || k.Fresh?
  }

  /** pin says whether the chunk before is in use; home names the segment. */
  datatype Chunk = Chunk(size: int, pin: bool, kind: Kind, home: nat)

  /** A segment: chunks tile [base, limit); what follows up to base + size is overhead.  exec leads from
      the writable to the executable mapping; rec is the address of the segment's record. */
  datatype Seg = Seg(base: int, size: int, limit: int, exec: int, rec: int)

  predicate HoldsAddress(s: Seg, a: int) {
    s.base <= a < s.base + s.size
  }

  type Chunks = map<int, Chunk>
  type Segs = map<nat, Seg>

  ghost predicate SegOk(s: Seg) {
    && GM_END <= s.base && s.base % 8 == 0 && s.size % 8 == 0 && s.limit % 8 == 0
    && s.base < s.limit && s.limit + 24 <= s.base + s.size && s.base + s.size < TWO64
  }

  ghost predicate TileOk(p: int, c: Chunk, s: Seg) {
    && p % 8 == 0 && c.size % 8 == 0 && c.size > 0 && (c.kind.Top? || c.size >= MIN_CHUNK_SIZE)
    && s.base <= p && p + c.size <= s.limit
  }

  /** The chunk that starts where p ends, or else the end of the segment's chunks. */
  ghost predicate NextOk(p: int, cs: Chunks, g: Segs)
    requires p in cs && cs[p].home in g
  {
    var n := p + cs[p].size;
    n == g[cs[p].home].limit || (n in cs && cs[n].home == cs[p].home && cs[n].pin == InUse(cs[p].kind))
  }

  ghost predicate Homes(cs: Chunks, g: Segs) {
    forall p :: p in cs ==> cs[p].home in g && TileOk(p, cs[p], g[cs[p].home])
  }

  ghost predicate Linked(cs: Chunks, g: Segs)
    requires Homes(cs, g)
  {
    forall p {:trigger NextOk(p, cs, g)} :: p in cs ==> NextOk(p, cs, g)
  }

  ghost predicate NoOverlap(cs: Chunks) {
    forall p, q :: p in cs && q in cs && p < q ==> p + cs[p].size <= q
  }

  ghost predicate Firsts(cs: Chunks, g: Segs) {
    forall h :: h in g ==> g[h].base in cs && cs[g[h].base].home == h && cs[g[h].base].pin
  }

  ghost predicate SegsOk(g: Segs) {
    && (forall h :: h in g ==> SegOk(g[h]))
    && (forall h, k :: h in g && k in g && h != k ==>
        g[h].base + g[h].size <= g[k].base || g[k].base + g[k].size <= g[h].base)
  }

  /** Every segment is tiled by its chunks, without gap or overlap, from base to limit. */
  ghost predicate Tiling(cs: Chunks, g: Segs) {
    SegsOk(g) && Homes(cs, g) && Linked(cs, g) && NoOverlap(cs) && Firsts(cs, g)
  }

  /** No two free chunks are neighbours: what precedes a free chunk is in use. */
  ghost predicate Coalesced(cs: Chunks) {
    forall p :: p in cs && !InUse(cs[p].kind) ==> cs[p].pin
  }

  // Redrawing the chunks of an interval

  /** [lo, hi) becomes one chunk of kind k1, or a chunk of kind k1 up to mid and one of kind k2 from there. */
  function Carve(cs: Chunks, lo: int, mid: int, hi: int, k1: Kind, k2: Kind): Chunks
    requires lo in cs
  {
    map p | p in cs.Keys + {mid} && (if p in cs then p <= lo || p >= hi || (p == mid && mid < hi) else mid < hi) ::
      if p == lo then Chunk(mid - lo, cs[lo].pin, k1, cs[lo].home)
      else if p == mid && mid < hi then Chunk(hi - mid, InUse(k1), k2, cs[lo].home)
      else if p == hi then cs[p].(pin := InUse(if mid < hi then k2 else k1))
      else cs[p]
  }

  ghost predicate CanCarve(cs: Chunks, g: Segs, lo: int, mid: int, hi: int, k1: Kind, k2: Kind) {
    && lo in cs && lo < mid <= hi && mid % 8 == 0
    && cs[lo].home in g
    && (hi == g[cs[lo].home].limit || (hi in cs && cs[hi].home == cs[lo].home))
    && hi <= g[cs[lo].home].limit
    && (k1.Top? || mid - lo >= MIN_CHUNK_SIZE)
    && (mid < hi ==> k2.Top? || hi - mid >= MIN_CHUNK_SIZE)
  }

  lemma CarveAt(cs: Chunks, lo: int, mid: int, hi: int, k1: Kind, k2: Kind, p: int)
    requires lo in cs && lo < mid <= hi
    ensures p in Carve(cs, lo, mid, hi, k1, k2) <==>
      p == lo || (p == mid && mid < hi) || (p in cs && (p < lo || p >= hi))
    ensures p in Carve(cs, lo, mid, hi, k1, k2) ==>
      Carve(cs, lo, mid, hi, k1, k2)[p] ==
        if p == lo then Chunk(mid - lo, cs[lo].pin, k1, cs[lo].home)
        else if p == mid && mid < hi then Chunk(hi - mid, InUse(k1), k2, cs[lo].home)
        else if p == hi then cs[p].(pin := InUse(if mid < hi then k2 else k1))
        else cs[p]
  {
  }

  lemma CarveHomes(cs: Chunks, g: Segs, lo: int, mid: int, hi: int, k1: Kind, k2: Kind)
    requires Tiling(cs, g) && CanCarve(cs, g, lo, mid, hi, k1, k2)
    ensures Homes(Carve(cs, lo, mid, hi, k1, k2), g)
  {
    hide Carve, Linked, NoOverlap, Firsts, SegsOk;
    var cs' := Carve(cs, lo, mid, hi, k1, k2);
    EndAligned(cs, g, hi, cs[lo].home);
    forall p | p in cs'
      ensures cs'[p].home in g && TileOk(p, cs'[p], g[cs'[p].home])
    {
      CarveAt(cs, lo, mid, hi, k1, k2, p);
    }
  }

  lemma EndAligned(cs: Chunks, g: Segs, hi: int, h: nat)
    requires Tiling(cs, g) && h in g && (hi == g[h].limit || hi in cs)
    ensures hi % 8 == 0
  {
  }

  lemma CarveNoOverlap(cs: Chunks, g: Segs, lo: int, mid: int, hi: int, k1: Kind, k2: Kind)
    requires Tiling(cs, g) && CanCarve(cs, g, lo, mid, hi, k1, k2)
    ensures NoOverlap(Carve(cs, lo, mid, hi, k1, k2))
  {
    hide Carve, Tiling;
    assert NoOverlap(cs) by { TilingParts(cs, g); }
    var cs' := Carve(cs, lo, mid, hi, k1, k2);
    forall p, q | p in cs' && q in cs' && p < q
      ensures p + cs'[p].size <= q
    {
      CarveAt(cs, lo, mid, hi, k1, k2, p);
      CarveAt(cs, lo, mid, hi, k1, k2, q);
    }
  }

  lemma TilingParts(cs: Chunks, g: Segs)
    requires Tiling(cs, g)
    ensures SegsOk(g) && Homes(cs, g) && Linked(cs, g) && NoOverlap(cs) && Firsts(cs, g)
  {
  }

  lemma CarveNext(cs: Chunks, g: Segs, lo: int, mid: int, hi: int, k1: Kind, k2: Kind, p: int)
    requires Tiling(cs, g) && CanCarve(cs, g, lo, mid, hi, k1, k2)
    requires var cs' := Carve(cs, lo, mid, hi, k1, k2); p in cs' && cs'[p].home in g
    ensures NextOk(p, Carve(cs, lo, mid, hi, k1, k2), g)
  {
    hide Carve, Tiling, NextOk;
    CarveAt(cs, lo, mid, hi, k1, k2, p);
    if p == lo || (p == mid && mid < hi) {
      CarveNextNew(cs, g, lo, mid, hi, k1, k2, p);
    } else {
      CarveNextElse(cs, g, lo, mid, hi, k1, k2, p);
    }
  }

  lemma CarveNextNew(cs: Chunks, g: Segs, lo: int, mid: int, hi: int, k1: Kind, k2: Kind, p: int)
    requires CanCarve(cs, g, lo, mid, hi, k1, k2) && (p == lo || (p == mid && mid < hi))
    requires var cs' := Carve(cs, lo, mid, hi, k1, k2); p in cs' && cs'[p].home in g
    ensures NextOk(p, Carve(cs, lo, mid, hi, k1, k2), g)
  {
    hide Carve;
    var cs' := Carve(cs, lo, mid, hi, k1, k2);
    CarveAt(cs, lo, mid, hi, k1, k2, p);
    CarveAt(cs, lo, mid, hi, k1, k2, p + cs'[p].size);
  }

  /** Chunks outside the interval are followed by what followed them, or by its new start. */
  lemma CarveNextElse(cs: Chunks, g: Segs, lo: int, mid: int, hi: int, k1: Kind, k2: Kind, p: int)
    requires Tiling(cs, g) && CanCarve(cs, g, lo, mid, hi, k1, k2) && p in cs && (p < lo || p >= hi)
    requires var cs' := Carve(cs, lo, mid, hi, k1, k2); p in cs' && cs'[p].home in g
    ensures NextOk(p, Carve(cs, lo, mid, hi, k1, k2), g)
  {
    hide Carve, SegsOk, Firsts;
    var cs' := Carve(cs, lo, mid, hi, k1, k2);
    CarveAt(cs, lo, mid, hi, k1, k2, p);
    CarveAt(cs, lo, mid, hi, k1, k2, p + cs[p].size);
    assert NextOk(p, cs, g);
    OutsideNext(cs, lo, hi, p);
  }

  lemma OutsideNext(cs: Chunks, lo: int, hi: int, p: int)
    requires NoOverlap(cs) && p in cs && lo in cs && (p < lo || p >= hi) && cs[p].size > 0
    ensures p + cs[p].size <= lo || p + cs[p].size > hi
  {
  }

  lemma CarveLinked(cs: Chunks, g: Segs, lo: int, mid: int, hi: int, k1: Kind, k2: Kind)
    requires Tiling(cs, g) && CanCarve(cs, g, lo, mid, hi, k1, k2)
    ensures Homes(Carve(cs, lo, mid, hi, k1, k2), g) && Linked(Carve(cs, lo, mid, hi, k1, k2), g)
  {
    hide Carve, SegsOk, Firsts, NextOk;
    CarveHomes(cs, g, lo, mid, hi, k1, k2);
    var cs' := Carve(cs, lo, mid, hi, k1, k2);
    forall p | p in cs'
      ensures NextOk(p, cs', g)
    {
      CarveAt(cs, lo, mid, hi, k1, k2, p);
      CarveNext(cs, g, lo, mid, hi, k1, k2, p);
    }
  }

  /** Redrawing an interval keeps the tiling. */
  lemma CarveTiling(cs: Chunks, g: Segs, lo: int, mid: int, hi: int, k1: Kind, k2: Kind)
    requires Tiling(cs, g) && CanCarve(cs, g, lo, mid, hi, k1, k2)
    ensures Tiling(Carve(cs, lo, mid, hi, k1, k2), g)
  {
    hide Carve;
    CarveLinked(cs, g, lo, mid, hi, k1, k2);
    CarveNoOverlap(cs, g, lo, mid, hi, k1, k2);
    var cs' := Carve(cs, lo, mid, hi, k1, k2);
    forall h | h in g
      ensures g[h].base in cs' && cs'[g[h].base].home == h && cs'[g[h].base].pin
    {
      CarveAt(cs, lo, mid, hi, k1, k2, g[h].base);
      if h == cs[lo].home {
        assert g[h].base <= lo;
      } else {
        assert g[h].base in cs && cs[g[h].base].home == h;
        OtherSegment(cs, g, lo, hi, g[h].base);
      }
    }
  }

  lemma OtherSegment(cs: Chunks, g: Segs, lo: int, hi: int, p: int)
    requires Tiling(cs, g) && lo in cs && p in cs && cs[p].home != cs[lo].home && lo < hi <= g[cs[lo].home].limit
    ensures p < lo || p > hi
  {
  }

  lemma CarveCoalesced(cs: Chunks, g: Segs, lo: int, mid: int, hi: int, k1: Kind, k2: Kind)
    requires Tiling(cs, g) && CanCarve(cs, g, lo, mid, hi, k1, k2) && Coalesced(cs)
    requires InUse(k1) || cs[lo].pin
    requires mid < hi ==> InUse(k1) || InUse(k2)
    requires hi in cs ==> InUse(cs[hi].kind) || InUse(if mid < hi then k2 else k1)
    ensures Coalesced(Carve(cs, lo, mid, hi, k1, k2))
  {
    hide Carve, Tiling;
    var cs' := Carve(cs, lo, mid, hi, k1, k2);
    forall p | p in cs' && !InUse(cs'[p].kind)
      ensures cs'[p].pin
    {
      CarveAt(cs, lo, mid, hi, k1, k2, p);
    }
  }

  // Boundary tags

  /** The head word of a chunk shows its size, its own use and that of the chunk before. */
  ghost predicate HeadOk(m: Mem, p: int, c: Chunk) {
    c.kind.Fresh? || W(m, p + HEAD) == MkHead(c.size, c.pin, InUse(c.kind))
  }

  /** The word after a free chunk repeats its size; top does without. */
  ghost predicate FootOk(m: Mem, p: int, c: Chunk) {
    InUse(c.kind) || c.kind.Top? || W(m, p + c.size) == c.size
  }

  ghost predicate TagsOk(m: Mem, cs: Chunks) {
    forall p :: p in cs ==> HeadOk(m, p, cs[p]) && FootOk(m, p, cs[p])
  }

  /** The word behind the last chunk: a fencepost, or the size of the overhead kept behind top. */
  ghost predicate FenceOk(m: Mem, s: Seg) {
    W(m, s.limit + HEAD) == if s.rec == GM_SEG then TOP_FOOT_SIZE else FENCEPOST_HEAD
  }

  ghost predicate FencesOk(m: Mem, g: Segs) {
    forall h :: h in g ==> FenceOk(m, g[h])
  }

  /** Only tag words of the boundaries lo, mid and hi have changed. */
  ghost predicate OnlyTags(m: Mem, m': Mem, lo: int, mid: int, hi: int) {
    forall a {:trigger W(m', a)} :: a != lo + HEAD && a != mid && a != mid + HEAD && a != hi && a != hi + HEAD ==>
      W(m', a) == W(m, a)
  }

  ghost predicate NewTags(m': Mem, cs: Chunks, lo: int, mid: int, hi: int, k1: Kind, k2: Kind)
    requires lo in cs && lo < mid <= hi
  {
    var cs' := Carve(cs, lo, mid, hi, k1, k2);
    && lo in cs' && HeadOk(m', lo, cs'[lo]) && FootOk(m', lo, cs'[lo])
    && (mid < hi ==> mid in cs' && HeadOk(m', mid, cs'[mid]) && FootOk(m', mid, cs'[mid]))
    && (hi in cs ==> hi in cs' && HeadOk(m', hi, cs'[hi]) && FootOk(m', hi, cs'[hi]))
  }

  /** Writing the tags of the redrawn interval makes all tags right again. */
  lemma CarveTags(m: Mem, m': Mem, cs: Chunks, g: Segs, lo: int, mid: int, hi: int, k1: Kind, k2: Kind)
    requires Tiling(cs, g) && CanCarve(cs, g, lo, mid, hi, k1, k2) && TagsOk(m, cs)
    requires OnlyTags(m, m', lo, mid, hi) && NewTags(m', cs, lo, mid, hi, k1, k2)
    ensures TagsOk(m', Carve(cs, lo, mid, hi, k1, k2))
  {
    hide W, Carve, Tiling, MkHead;
    TilingParts(cs, g);
    var cs' := Carve(cs, lo, mid, hi, k1, k2);
    forall p | p in cs'
      ensures HeadOk(m', p, cs'[p]) && FootOk(m', p, cs'[p])
    {
      CarveAt(cs, lo, mid, hi, k1, k2, p);
      if p != lo && p != hi && !(p == mid && mid < hi) {
        assert p in cs && cs'[p] == cs[p] && (p < lo || p > hi);
        TagsFar(m, m', cs, g, lo, mid, hi, p);
      }
    }
  }

  lemma TagsFar(m: Mem, m': Mem, cs: Chunks, g: Segs, lo: int, mid: int, hi: int, p: int)
    requires Tiling(cs, g) && lo in cs && lo < mid <= hi && (hi in cs || hi == g[cs[lo].home].limit) && p in cs
    requires (p < lo || p > hi)
    requires OnlyTags(m, m', lo, mid, hi) && HeadOk(m, p, cs[p]) && FootOk(m, p, cs[p])
    requires hi <= g[cs[lo].home].limit
    ensures HeadOk(m', p, cs[p]) && FootOk(m', p, cs[p])
  {
    hide W, MkHead, Linked, Firsts;
    if p > hi && hi !in cs {
      assert cs[p].home != cs[lo].home;
    }
  }

  lemma CarveFences(m: Mem, m': Mem, cs: Chunks, g: Segs, lo: int, mid: int, hi: int)
    requires Tiling(cs, g) && lo in cs && lo < mid <= hi && hi <= g[cs[lo].home].limit && FencesOk(m, g)
    requires OnlyTags(m, m', lo, mid, hi) && (hi == g[cs[lo].home].limit ==> W(m', hi + HEAD) == W(m, hi + HEAD))
    ensures FencesOk(m', g)
  {
    hide W, Linked, Firsts, NoOverlap;
    forall h | h in g
      ensures W(m', g[h].limit + HEAD) == W(m, g[h].limit + HEAD)
    {
      assert SegOk(g[h]) && SegOk(g[cs[lo].home]);
      if h == cs[lo].home {
      } else {
        assert g[h].limit + HEAD < g[h].base + g[h].size;
      }
    }
  }
}
