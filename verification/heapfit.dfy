/** Which chunk a request is served from. */
module HeapFit {
  import opened BestFit
  import opened BinIndex
  import opened BitMaps
  import opened Bins
  import opened HeapState
  import opened Rings
  import opened Tiles
  import opened TreeSearch
  import opened Words

  /** pad_request: room for the overhead, rounded up to the alignment. */
  function PadRequest(bytes: int): (nb: int)
    requires MIN_REQUEST <= bytes
    ensures nb % 8 == 0 && bytes + CHUNK_OVERHEAD <= nb < bytes + CHUNK_OVERHEAD + 8 && nb >= MIN_CHUNK_SIZE
  {
    var x := bytes + CHUNK_OVERHEAD + 7;
    x - x % 8
  }

  /** request2size for a small request. */
  function SmallRequest(bytes: int): (nb: int)
    requires 0 <= bytes <= MAX_SMALL_REQUEST
    ensures nb % 8 == 0 && MIN_CHUNK_SIZE <= nb < MIN_LARGE_SIZE && bytes + CHUNK_OVERHEAD <= nb
  {
    if bytes < MIN_REQUEST then MIN_CHUNK_SIZE else PadRequest(bytes)
  }

  ghost predicate Fits(cs: Chunks, nb: int, p: int) {
    p in cs && cs[p].kind.Binned? && cs[p].size >= nb
  }

  /** p is a smallest binned chunk that holds nb bytes. */
  ghost predicate LeastFit(cs: Chunks, nb: int, p: int) {
    Fits(cs, nb, p) && forall q :: Fits(cs, nb, q) ==> cs[p].size <= cs[q].size
  }

  /** The request is served from bin chunk p: a least fit, and the victim does not take precedence.  For a small
      request only a small chunk that fits within eight bytes comes before the victim, for a large one any tighter
      fit does. */
  ghost predicate FromBin(s: State, nb: int, p: int) {
    && LeastFit(s.cs, nb, p)
    && (s.dvsize < nb || (if nb < MIN_LARGE_SIZE then s.cs[p].size <= nb + 8 && s.cs[p].size < MIN_LARGE_SIZE
                          else s.cs[p].size < s.dvsize))
  }

  lemma FitIs(s: State, nb: int, p: int)
    requires LeastFit(s.cs, nb, p)
    ensures p in s.cs && s.cs[p].kind.Binned? && s.cs[p].size >= nb
  {
  }

  lemma FitPositive(m: Mem, s: State, nb: int, p: int)
    requires HeapOk(m, s) && LeastFit(s.cs, nb, p)
    ensures p >= GM_END
  {
    hide HeapOk;
    SizesBounded(m, s);
  }

  ghost predicate NoBin(s: State, nb: int) {
    forall p :: !FromBin(s, nb, p)
  }

  /** The chunk at p serves a request for nb bytes: a bin chunk, else the victim, else top. */
  ghost predicate Serves(s: State, nb: int, p: int) {
    || FromBin(s, nb, p)
    || (NoBin(s, nb) && nb <= s.dvsize && p == s.dv)
    || (NoBin(s, nb) && s.dvsize < nb < s.topsize && p == s.top)
  }

  /** No chunk of the heap as it is can serve the request. */
  ghost predicate NeedsMore(s: State, nb: int) {
    NoBin(s, nb) && s.dvsize < nb && s.topsize <= nb
  }

  lemma FoundServes(s: State, nb: int, p: int)
    requires FromBin(s, nb, p)
    ensures Serves(s, nb, p)
  {
    hide FromBin, NoBin;
  }

  lemma NoneServes(s: State, nb: int)
    requires nb < MAX_SIZE_T ==> NoBin(s, nb)
    ensures nb < MAX_SIZE_T && nb <= s.dvsize ==> Serves(s, nb, s.dv)
    ensures nb < MAX_SIZE_T && s.dvsize < nb < s.topsize ==> Serves(s, nb, s.top)
    ensures nb < MAX_SIZE_T && s.dvsize < nb && s.topsize <= nb ==> NeedsMore(s, nb)
  {
    hide FromBin, NoBin;
  }

  // What the bitmaps tell

  lemma BitOfSmall(m: Mem, s: State, p: int)
    requires HeapOk(m, s) && p in s.cs && s.cs[p].kind.Binned? && s.cs[p].size < MIN_LARGE_SIZE
    ensures var i := SmallIndex(s.cs[p].size); 4 <= i < 32 && s.cs[p].size == 8 * i && s.b.smallmap[i]
  {
    hide W, Linked, Firsts, Coalesced, DvOk, TopOk, RecordPlace, SegList, FencesOk, TagsOk, TreeBins, RingRep,
      NoOverlap;
    var i := SmallIndex(s.cs[p].size);
    assert p in s.b.bn;
    assert ChunkOk(p, s.b.bn[p]);
    assert SmallBin(m, s.b.smallmap, i, s.b.small[i], s.b.bn);
  }

  /** The first chunk of the first occupied small bin that is big enough is a least fit. */
  lemma SmallLeast(m: Mem, s: State, nb: int, i: int, p: int)
    requires HeapOk(m, s) && nb % 8 == 0 && 0 <= nb && nb / 8 <= i < 32
    requires forall j :: nb / 8 <= j < i ==> !s.b.smallmap[j]
    requires p in s.cs && s.cs[p].kind.Binned? && s.cs[p].size == 8 * i
    ensures LeastFit(s.cs, nb, p)
  {
    hide HeapOk;
    forall q | Fits(s.cs, nb, q)
      ensures s.cs[p].size <= s.cs[q].size
    {
      if s.cs[q].size < MIN_LARGE_SIZE {
        BitOfSmall(m, s, q);
      }
    }
  }

  lemma NoSmallFits(m: Mem, s: State, nb: int, n: int)
    requires HeapOk(m, s) && nb % 8 == 0 && 0 <= nb && n <= 32
    requires forall j :: 0 <= j < 32 && nb / 8 <= j < n ==> !s.b.smallmap[j]
    ensures forall q :: Fits(s.cs, nb, q) ==> s.cs[q].size >= 8 * n
  {
    hide HeapOk;
    forall q | Fits(s.cs, nb, q)
      ensures s.cs[q].size >= 8 * n
    {
      if s.cs[q].size < MIN_LARGE_SIZE {
        BitOfSmall(m, s, q);
      }
    }
  }

  lemma TreesAreReady(m: Mem, s: State)
    requires HeapOk(m, s)
    ensures TreesReady(m, s.b)
    ensures forall p :: p in s.b.bn <==> p in s.cs && s.cs[p].kind.Binned?
    ensures forall p :: p in s.b.bn ==> s.b.bn[p] == s.cs[p].size
  {
    hide W, Linked, Firsts, Coalesced, DvOk, TopOk, RecordPlace, SegList, FencesOk, TagsOk, SmallBins, TreeBins,
      NoOverlap, Readable, Homes, SegsOk;
    BinnedReadable(m, s);
    BinsAre(m, s);
  }

  lemma BinsAre(m: Mem, s: State)
    requires HeapOk(m, s)
    ensures BnOk(s.b.bn) && TreeBins(m, s.b)
  {
    hide W, ShapeOk, SegList, FencesOk, TagsOk, SmallBins, TreeBins;
  }

  /** An empty treemap means no large chunk is binned. */
  lemma NoLargeBinned(m: Mem, s: State)
    requires HeapOk(m, s) && !NonZero(s.b.treemap)
    ensures forall q :: q in s.cs && s.cs[q].kind.Binned? ==> s.cs[q].size < MIN_LARGE_SIZE
  {
    hide HeapOk, TreesReady, TreeIndex, W;
    TreesAreReady(m, s);
    forall q | q in s.cs && s.cs[q].kind.Binned? && s.cs[q].size >= MIN_LARGE_SIZE
      ensures false
    {
      InItsTree(m, s.b, q);
    }
  }

  /** A least large chunk is a least fit for a small request when no small chunk fits. */
  lemma LargeIsLeast(m: Mem, s: State, nb: int, v: int, rsize: int)
    requires HeapOk(m, s) && 0 < nb < MIN_LARGE_SIZE && IsLeastLarge(v, rsize, nb, s.b.bn)
    requires forall q :: Fits(s.cs, nb, q) ==> s.cs[q].size >= MIN_LARGE_SIZE
    ensures LeastFit(s.cs, nb, v) && s.cs[v].size == rsize + nb && s.cs[v].size >= MIN_LARGE_SIZE
  {
    hide HeapOk, TreesReady;
    TreesAreReady(m, s);
  }

  /** A best fit over the trees is a least fit for a large request. */
  lemma BestIsLeast(m: Mem, s: State, nb: int, v: int, rsize: int)
    requires HeapOk(m, s) && MIN_LARGE_SIZE <= nb && IsBestFit(v, rsize, nb, s.b.bn)
    ensures v == 0 ==> rsize == TWO64 - nb && forall q :: !Fits(s.cs, nb, q)
    ensures v != 0 ==> LeastFit(s.cs, nb, v) && s.cs[v].size == rsize + nb && s.cs[v].size >= MIN_LARGE_SIZE
  {
    hide HeapOk, TreesReady;
    TreesAreReady(m, s);
  }

  /** (size_t)(dvsize - nb) compared with the remainder of the best fit. */
  lemma VictimLoses(m: Mem, s: State, nb: int, v: int, rsize: int)
    requires HeapOk(m, s) && MIN_LARGE_SIZE <= nb < TWO64
    requires v != 0 ==> LeastFit(s.cs, nb, v) && s.cs[v].size == rsize + nb
    requires v == 0 ==> forall q :: !Fits(s.cs, nb, q)
    ensures v != 0 && rsize < U64(s.dvsize - nb) ==> FromBin(s, nb, v)
    ensures v == 0 || rsize >= U64(s.dvsize - nb) ==> NoBin(s, nb)
  {
    hide HeapOk;
    SizesBounded(m, s);
    if s.dvsize < nb {
      assert U64(s.dvsize - nb) == s.dvsize - nb + TWO64;
    } else {
      assert U64(s.dvsize - nb) == s.dvsize - nb;
    }
  }

  lemma SizesBounded(m: Mem, s: State)
    requires HeapOk(m, s)
    ensures 0 <= s.dvsize < TWO64 && 0 <= s.topsize < TWO64
    ensures forall p :: p in s.cs ==>
      0 < s.cs[p].size < TWO64 && p + s.cs[p].size < TWO64 && p >= GM_END && p % 8 == 0 && s.cs[p].size % 8 == 0
    ensures s.order == [] <==> s.top == 0
    ensures s.order == [] ==> s.topsize == 0 && s.cs == map[]
  {
    hide W, HeapOk, ShapeOk;
    ShapeIn(m, s);
    forall p | p in s.cs
      ensures 0 < s.cs[p].size < TWO64 && p + s.cs[p].size < TWO64 && p >= GM_END && p % 8 == 0 && s.cs[p].size % 8 == 0
    {
      SizeBounded(s, p);
    }
    CachesBounded(s);
  }

  lemma ShapeIn(m: Mem, s: State)
    requires HeapOk(m, s)
    ensures ShapeOk(s)
  {
    hide W, ShapeOk;
  }

  lemma SizeBounded(s: State, p: int)
    requires ShapeOk(s) && p in s.cs
    ensures 0 < s.cs[p].size < TWO64 && p + s.cs[p].size < TWO64 && p >= GM_END && p % 8 == 0 && s.cs[p].size % 8 == 0
  {
    hide Linked, Coalesced, NoOverlap, Firsts, BinnedIs, DvOk, TopOk, RecordPlace;
    assert SegOk(s.g[s.cs[p].home]);
  }

  lemma CachesBounded(s: State)
    requires ShapeOk(s) && forall p :: p in s.cs ==> 0 < s.cs[p].size < TWO64 && p >= GM_END
    ensures 0 <= s.dvsize < TWO64 && 0 <= s.topsize < TWO64
    ensures s.order == [] <==> s.top == 0
    ensures s.order == [] ==> s.topsize == 0 && s.cs == map[]
  {
    hide Linked, Coalesced, NoOverlap, Firsts, BinnedIs, SegsOk;
    if s.dvsize != 0 { assert s.dv in s.cs; }
    if s.order != [] {
      assert s.top in s.cs;
    } else {
      NoChunks(s);
    }
  }

  lemma NoChunks(s: State)
    requires ShapeOk(s) && s.order == []
    ensures s.cs == map[]
  {
    hide Linked, NoOverlap, Firsts, Coalesced;
    assert forall h :: h in s.g ==> h in s.order;
    assert forall p :: p !in s.cs;
  }

  /** The chunk size for a request that is not too big. */
  function Request(bytes: int): int
    requires 0 <= bytes
  {
    if bytes <= MAX_SMALL_REQUEST then SmallRequest(bytes) else PadRequest(bytes)
  }

  /** No small bin from that of nb on is occupied within the reach of n bits. */
  lemma NoBinNear(m: Mem, s: State, nb: int)
    requires HeapOk(m, s) && nb % 8 == 0 && MIN_CHUNK_SIZE <= nb < MIN_LARGE_SIZE && nb <= s.dvsize
    requires !s.b.smallmap[nb / 8] && (nb / 8 + 1 < 32 ==> !s.b.smallmap[nb / 8 + 1])
    ensures NoBin(s, nb)
  {
    hide HeapOk;
    forall p | FromBin(s, nb, p)
      ensures false
    {
      BitOfSmall(m, s, p);
    }
  }

  lemma NoBinAtAll(m: Mem, s: State, nb: int)
    requires HeapOk(m, s) && nb % 8 == 0 && MIN_CHUNK_SIZE <= nb < MIN_LARGE_SIZE
    requires (forall j :: nb / 8 <= j < 32 ==> !s.b.smallmap[j]) && !NonZero(s.b.treemap)
    ensures NoBin(s, nb)
  {
    hide HeapOk;
    NoLargeBinned(m, s);
    NoSmallFits(m, s, nb, 32);
  }

  /** The bits of smallmap from idx on, shifted down. */
  lemma ShiftedBits(x: Bits, idx: int)
    requires 0 <= idx < 32
    ensures var y := Shr(x, idx);
      && (y[0] <==> x[idx]) && (y[1] <==> idx + 1 < 32 && x[idx + 1])
      && (NonZero(y) <==> exists j :: idx <= j < 32 && x[j])
  {
    var y := Shr(x, idx);
    if exists j :: idx <= j < 32 && x[j] {
      var j :| idx <= j < 32 && x[j];
      assert y[j - idx];
    }
    if NonZero(y) {
      var k :| 0 <= k < 32 && y[k];
      assert x[k + idx];
    }
  }

  /** The next occupied small bin after idx. */
  lemma NextSmallBin(x: Bits, idx: int)
    requires 0 <= idx < 32 && !x[idx] && NonZero(Shr(x, idx))
    ensures var leftbits := And(Shl(Shr(x, idx), idx), LeftBits(IdxToBit(idx)));
      && NonZero(leftbits) && NonZero(LeastBit(leftbits))
      && var i := BitToIdx(LeastBit(leftbits));
      idx < i < 32 && x[i] && forall j :: idx <= j < i ==> !x[j]
  {
    ShiftedBits(x, idx);
    var leftbits := And(Shl(Shr(x, idx), idx), LeftBits(IdxToBit(idx)));
    LeftBitsOfIndex(idx);
    forall j | 0 <= j < 32
      ensures leftbits[j] <==> j > idx && x[j]
    {
    }
    var j :| idx <= j < 32 && x[j];
    assert leftbits[j];
    LeastBitIsFirst(leftbits);
  }
}
