/** What each way of handing out, taking back or regrouping chunks does to the heap and to its clients. */
module HeapMoves {
  import opened Bins
  import opened HeapKept
  import opened HeapState
  import opened HeapSteps
  import opened HeapTags
  import opened Tiles
  import opened Words

  /** From (m0, s) to (m, t), block p of the given size has been handed out and nothing else has happened to the
      clients. */
  ghost predicate Gave(m0: Mem, s: State, m: Mem, t: State, p: int, size: int) {
    && HeapOk(m, t) && Users(t.cs) == Users(s.cs)[p := size] && p !in Users(s.cs) && Kept(m0, s, m, t, Users(s.cs))
  }

  /** The clients have noticed nothing. */
  ghost predicate Unnoticed(m0: Mem, s: State, m: Mem, t: State) {
    && HeapOk(m, t) && Users(t.cs) == Users(s.cs) && Kept(m0, s, m, t, Users(s.cs))
  }

  /** From (m0, s) to (m, t), block p has been taken back and nothing else has happened to the clients. */
  ghost predicate Took(m0: Mem, s: State, m: Mem, t: State, p: int) {
    && HeapOk(m, t) && Users(t.cs) == Users(s.cs) - {p} && p in Users(s.cs) && Kept(m0, s, m, t, Users(s.cs) - {p})
  }

  lemma GaveLater(m0: Mem, s: State, m1: Mem, s1: State, m: Mem, t: State, p: int, size: int)
    requires Unnoticed(m0, s, m1, s1) && Gave(m1, s1, m, t, p, size)
    ensures Gave(m0, s, m, t, p, size)
  {
    hide HeapOk, Kept, Users;
    KeptTrans(m0, s, m1, s1, m, t, Users(s.cs));
  }

  lemma GaveBefore(m0: Mem, s: State, m1: Mem, s1: State, m: Mem, t: State, p: int, size: int)
    requires Gave(m0, s, m1, s1, p, size) && Unnoticed(m1, s1, m, t)
    ensures Gave(m0, s, m, t, p, size)
  {
    hide HeapOk, Kept, Users;
    KeptLess(m1, s1, m, t, Users(s1.cs), Users(s.cs));
    KeptTrans(m0, s, m1, s1, m, t, Users(s.cs));
  }

  lemma TookLater(m0: Mem, s: State, m1: Mem, s1: State, m: Mem, t: State, p: int)
    requires Unnoticed(m0, s, m1, s1) && Took(m1, s1, m, t, p)
    ensures Took(m0, s, m, t, p)
  {
    hide HeapOk, Kept, Users;
    KeptLess(m0, s, m1, s1, Users(s.cs), Users(s.cs) - {p});
    KeptTrans(m0, s, m1, s1, m, t, Users(s.cs) - {p});
  }

  lemma TookBefore(m0: Mem, s: State, m1: Mem, s1: State, m: Mem, t: State, p: int)
    requires Took(m0, s, m1, s1, p) && Unnoticed(m1, s1, m, t)
    ensures Took(m0, s, m, t, p)
  {
    hide HeapOk, Kept, Users;
    KeptTrans(m0, s, m1, s1, m, t, Users(s.cs) - {p});
  }

  lemma UnnoticedTrans(m0: Mem, s: State, m1: Mem, s1: State, m: Mem, t: State)
    requires Unnoticed(m0, s, m1, s1) && Unnoticed(m1, s1, m, t)
    ensures Unnoticed(m0, s, m, t)
  {
    hide HeapOk, Kept, Users;
    KeptTrans(m0, s, m1, s1, m, t, Users(s.cs));
  }

  lemma UnnoticedSelf(m: Mem, s: State)
    requires HeapOk(m, s)
    ensures Unnoticed(m, s, m, s)
  {
    hide W, HeapOk;
    UsersAreIn(s.cs);
  }

  lemma BinsUnnoticed(m0: Mem, m: Mem, s: State, t: State, p: int, k: Kind)
    requires HeapOk(m0, s) && HeapOk(m, t) && FreeWordsOnly(m0, m, s.cs) && p in s.cs && FreeKind(s.cs[p].kind)
    requires FreeKind(k)
    requires t == s.(b := t.b, cs := Rekind(s.cs, p, k))
    ensures Unnoticed(m0, s, m, t)
    ensures Pending(t.cs) == if k.Loose? then Pending(s.cs) + {p} else Pending(s.cs) - {p}
  {
    hide HeapOk, ShapeOk, Kept, Users, FreeWordsOnly, Rekind, Pending;
    ShapeOf(m0, s);
    BinsKept(m0, m, s, t, p, k);
  }

  /** Redrawing [lo, hi), which holds no block, as a block and a free rest. */
  lemma CarveGives(m0: Mem, m: Mem, s: State, lo: int, mid: int, hi: int, k2: Kind)
    requires HeapOk(m0, s) && CarveOk(s, lo, mid, hi, User, k2) && m.Keys == m0.Keys && (mid < hi ==> !k2.User?)
    requires OnlyTags(m0, m, lo, mid, hi) && NewTags(m, s.cs, lo, mid, hi, User, k2)
    requires hi == s.g[s.cs[lo].home].limit ==> W(m, hi + HEAD) == W(m0, hi + HEAD)
    requires forall q :: q in s.cs && lo <= q < hi ==> !s.cs[q].kind.User?
    ensures Gave(m0, s, m, CarveState(s, lo, mid, hi, User, k2), lo, mid - lo)
  {
    hide W, HeapOk, ShapeOk, CanCarve, OnlyTags, NewTags, Carve, Kept, Users;
    ShapeOf(m0, s);
    CarveFacts(s, lo, mid, hi, User, k2);
    CarveStep(m0, m, s, lo, mid, hi, User, k2);
    UsersAreIn(s.cs);
    UsersOutside(s.cs, lo, hi);
    CarveUsers(s, lo, mid, hi, User, if mid < hi then k2 else Loose);
    if mid == hi {
      WholeCarve(s.cs, lo, hi, User, k2, Loose);
    }
    CarveKept(m0, m, s, lo, mid, hi, User, k2, Users(s.cs));
  }

  lemma WholeCarve(cs: Chunks, lo: int, hi: int, k: Kind, k2: Kind, k3: Kind)
    requires lo in cs && lo < hi
    ensures Carve(cs, lo, hi, hi, k, k2) == Carve(cs, lo, hi, hi, k, k3)
  {
  }

  lemma UsersOutside(cs: Chunks, lo: int, hi: int)
    requires forall q :: q in cs && lo <= q < hi ==> !cs[q].kind.User?
    ensures forall q :: q in Users(cs) ==> q < lo || q >= hi
  {
  }

  /** Redrawing block p and free neighbours as one free chunk. */
  lemma CarveTakes(m0: Mem, m: Mem, s: State, lo: int, p: int, hi: int, k: Kind)
    requires HeapOk(m0, s) && CarveOk(s, lo, hi, hi, k, User) && m.Keys == m0.Keys && !k.User?
    requires OnlyTags(m0, m, lo, hi, hi) && NewTags(m, s.cs, lo, hi, hi, k, User)
    requires hi == s.g[s.cs[lo].home].limit ==> W(m, hi + HEAD) == W(m0, hi + HEAD)
    requires p in s.cs && lo <= p < hi && s.cs[p].kind.User?
    requires forall q :: q in s.cs && lo <= q < hi && s.cs[q].kind.User? ==> q == p
    ensures Took(m0, s, m, CarveState(s, lo, hi, hi, k, User), p)
  {
    hide W, HeapOk, ShapeOk, CanCarve, OnlyTags, NewTags, Carve, Kept;
    ShapeOf(m0, s);
    CarveFacts(s, lo, hi, hi, k, User);
    CarveStep(m0, m, s, lo, hi, hi, k, User);
    var u := Users(s.cs) - {p};
    CarveKept(m0, m, s, lo, hi, hi, k, User, u);
    var c := Carve(s.cs, lo, hi, hi, k, User);
    forall q
      ensures q in Users(c) <==> q in u
      ensures q in u && q in Users(c) ==> Users(c)[q] == u[q]
    {
      CarveAt(s.cs, lo, hi, hi, k, User, q);
    }
  }

  /** Redrawing free chunks as one free chunk. */
  lemma CarveUnnoticed(m0: Mem, m: Mem, s: State, lo: int, hi: int, k: Kind)
    requires HeapOk(m0, s) && CarveOk(s, lo, hi, hi, k, User) && m.Keys == m0.Keys && !k.User?
    requires OnlyTags(m0, m, lo, hi, hi) && NewTags(m, s.cs, lo, hi, hi, k, User)
    requires hi == s.g[s.cs[lo].home].limit ==> W(m, hi + HEAD) == W(m0, hi + HEAD)
    requires forall q :: q in s.cs && lo <= q < hi ==> !s.cs[q].kind.User?
    ensures Unnoticed(m0, s, m, CarveState(s, lo, hi, hi, k, User))
  {
    hide W, HeapOk, ShapeOk, CanCarve, OnlyTags, NewTags, Carve, Kept;
    ShapeOf(m0, s);
    CarveFacts(s, lo, hi, hi, k, User);
    CarveStep(m0, m, s, lo, hi, hi, k, User);
    var u := Users(s.cs);
    CarveKept(m0, m, s, lo, hi, hi, k, User, u);
    var c := Carve(s.cs, lo, hi, hi, k, User);
    forall q
      ensures q in Users(c) <==> q in u
      ensures q in u && q in Users(c) ==> Users(c)[q] == u[q]
    {
      CarveAt(s.cs, lo, hi, hi, k, User, q);
    }
  }

  // Handing out

  /** Redrawing one chunk changes what is pending only there. */
  lemma PendingOne(s: State, p: int, mid: int, k1: Kind, k2: Kind)
    requires ShapeOk(s) && p in s.cs && p < mid <= p + s.cs[p].size
    ensures var n := p + s.cs[p].size; var t := CarveState(s, p, mid, n, k1, k2);
      Pending(t.cs) ==
        Pending(s.cs) - {p} + (if k1.Loose? || k1.Fresh? then {p} else {}) +
        (if mid < n && (k2.Loose? || k2.Fresh?) then {mid} else {})
  {
    hide ShapeOk, Carve;
    var n := p + s.cs[p].size;
    OneChunk(s, p);
    CarvePending(s, p, mid, n, k1, k2);
    var t := CarveState(s, p, mid, n, k1, k2);
    var a := Pending(s.cs) - {p} + (if k1.Loose? || k1.Fresh? then {p} else {}) +
             (if mid < n && (k2.Loose? || k2.Fresh?) then {mid} else {});
    forall q
      ensures q in Pending(t.cs) <==> q in a
    {
      assert p <= q < n && q in s.cs ==> q == p;
    }
  }

  ghost predicate ChunkIs(cs: Chunks, p: int, c: Chunk) {
    p in cs && cs[p] == c
  }

  /** set_inuse_and_pinuse on a free chunk. */
  lemma WholeGiven(m0: Mem, m: Mem, s: State, p: int)
    requires HeapOk(m0, s) && p in s.cs && Joinable(s.cs[p].kind)
    requires var n := p + s.cs[p].size; p + HEAD in m0 && n + HEAD in m0 && m == SetInuseAndPinuse(m0, p, s.cs[p].size)
    ensures var n := p + s.cs[p].size; var t := CarveState(s, p, n, n, User, User);
      Gave(m0, s, m, t, p, s.cs[p].size) && Pending(t.cs) == Pending(s.cs) - {p}
    ensures m.Keys == m0.Keys
  {
    hide W, HeapOk, ShapeOk, CarveOk, OnlyTags, NewTags, Carve, Gave;
    var n := p + s.cs[p].size;
    ShapeOf(m0, s);
    WholeTags(m0, m, s, p);
    OneChunk(s, p);
    FreeNeighbour(s, p);
    NotAtLimit(s, p);
    CarveGives(m0, m, s, p, n, n, User);
    PendingOne(s, p, n, User, User);
  }

  lemma NotAtLimit(s: State, p: int)
    requires ShapeOk(s) && FreeAlone(s.cs, p) && Placed(s, p)
    ensures p + s.cs[p].size != s.g[s.cs[p].home].limit
  {
    hide BinnedIs, DvOk, RecordPlace, TopOk, Linked, Coalesced, NoOverlap, SegsOk, Firsts;
  }

  /** The front of a free chunk. */
  lemma FrontGiven(m0: Mem, m: Mem, s: State, p: int, nb: int, k2: Kind)
    requires HeapOk(m0, s) && p in s.cs && Joinable(s.cs[p].kind) && Joinable(k2)
    requires k2.Dv? ==> s.dvsize == 0 || s.cs[p].kind.Dv?
    requires nb % 8 == 0 && nb >= MIN_CHUNK_SIZE && s.cs[p].size - nb >= MIN_CHUNK_SIZE
    requires SplitWritten(m0, m, p, nb, s.cs[p].size)
    ensures var n := p + s.cs[p].size; var t := CarveState(s, p, p + nb, n, User, k2);
      && Gave(m0, s, m, t, p, nb)
      && Pending(t.cs) == (if k2.Loose? then Pending(s.cs) - {p} + {p + nb} else Pending(s.cs) - {p})
      && ChunkIs(t.cs, p + nb, Chunk(s.cs[p].size - nb, true, k2, s.cs[p].home))
  {
    hide W, HeapOk, ShapeOk, CarveOk, OnlyTags, NewTags, Carve, Gave, SplitWritten;
    var n := p + s.cs[p].size;
    ShapeOf(m0, s);
    SplitTags(m0, m, s, p, nb, k2);
    assert m.Keys == m0.Keys by { SplitKeys(m0, m, p, nb, s.cs[p].size); }
    OneChunk(s, p);
    FreeNeighbour(s, p);
    NotAtLimit(s, p);
    CarveGives(m0, m, s, p, p + nb, n, k2);
    PendingOne(s, p, p + nb, User, k2);
    CarveAt(s.cs, p, p + nb, n, User, k2, p + nb);
  }

  lemma SplitKeys(m0: Mem, m: Mem, p: int, nb: int, size: int)
    requires SplitWritten(m0, m, p, nb, size)
    ensures m.Keys == m0.Keys
  {
  }

  /** The front of top. */
  lemma TopGiven(m0: Mem, m: Mem, s: State, nb: int)
    requires HeapOk(m0, s) && s.order != [] && nb % 8 == 0 && MIN_CHUNK_SIZE <= nb < s.topsize
    requires s.top + HEAD in m0 && s.top + nb + HEAD in m0
    requires m == SetInuseSize(Put(m0, s.top + nb + HEAD, s.topsize - nb + PINUSE_BIT), s.top, nb)
    ensures s.top in s.cs
    ensures var t := CarveState(s, s.top, s.top + nb, s.top + s.topsize, User, Top);
      Gave(m0, s, m, t, s.top, nb) && Pending(t.cs) == Pending(s.cs)
    ensures m.Keys == m0.Keys
  {
    hide W, HeapOk, ShapeOk, CarveOk, OnlyTags, NewTags, Carve, Gave, Pending;
    ShapeOf(m0, s);
    TopPlace(s);
    TopSplitTags(m0, m, s, nb);
    OneChunk(s, s.top);
    CarveGives(m0, m, s, s.top, s.top + nb, s.top + s.topsize, Top);
    PendingOne(s, s.top, s.top + nb, User, Top);
    TopNotPending(s.cs, s.top);
  }

  lemma TopNotPending(cs: Chunks, p: int)
    requires p in cs && cs[p].kind.Top?
    ensures p !in Pending(cs)
  {
  }

  // The designated victim

  /** A free chunk becomes the victim, or the victim a loose chunk; no word changes. */
  lemma VictimMoves(m: Mem, s: State, p: int, k: Kind)
    requires HeapOk(m, s) && p in s.cs && Joinable(s.cs[p].kind) && Joinable(k) && (k.Dv? ==> s.dvsize == 0)
    ensures var n := p + s.cs[p].size; var t := CarveState(s, p, n, n, k, User);
      && Unnoticed(m, s, m, t)
      && Pending(t.cs) == (if k.Loose? then Pending(s.cs) + {p} else Pending(s.cs) - {p})
      && ChunkIs(t.cs, p, s.cs[p].(kind := k))
      && forall q :: q in s.cs && q != p ==> ChunkIs(t.cs, q, s.cs[q])
  {
    hide W, HeapOk, ShapeOk, Carve, Unnoticed;
    var n := p + s.cs[p].size;
    ShapeOf(m, s);
    OneChunk(s, p);
    FreeNeighbour(s, p);
    NotAtLimit(s, p);
    VictimTags(m, s, p, k);
    CarveUnnoticed(m, m, s, p, n, k);
    PendingOne(s, p, n, k, User);
    forall q | q in s.cs
      ensures q in CarveState(s, p, n, n, k, User).cs
      ensures CarveState(s, p, n, n, k, User).cs[q] == if q == p then s.cs[p].(kind := k) else s.cs[q]
    {
      CarveAt(s.cs, p, n, n, k, User, q);
    }
  }

  lemma VictimTags(m: Mem, s: State, p: int, k: Kind)
    requires HeapOk(m, s) && p in s.cs && Joinable(s.cs[p].kind) && Joinable(k) && (k.Dv? ==> s.dvsize == 0)
    ensures var n := p + s.cs[p].size;
      n > p && CarveOk(s, p, n, n, k, User) && OnlyTags(m, m, p, n, n) && NewTags(m, s.cs, p, n, n, k, User)
  {
    hide W, Tiling, Carve, TopOk, BinnedIs, RecordPlace, DvOk, Coalesced, TagsOk, FencesOk, BinsOk, SegList, MappedOk;
    var n := p + s.cs[p].size;
    FreeNeighbour(s, p);
    OneChunk(s, p);
    TopNot(s, p);
    CarveAt(s.cs, p, n, n, k, User, p);
    CarveAt(s.cs, p, n, n, k, User, n);
    TagsAt(m, s, p);
    TagsAt(m, s, n);
  }

  // Taking back

  /** Block p and its free neighbours become one free chunk. */
  lemma SpanFreed(m0: Mem, m: Mem, s: State, lo: int, p: int, hi: int, k: Kind)
    requires HeapOk(m0, s) && Span(s, lo, p, hi) && s.cs[p].kind.User? && Joinable(k) && !NextTop(s, p, hi)
    requires lo + HEAD in m0 && hi in m0 && hi + HEAD in m0
    requires if NextInUse(s, p, hi) then m == SetFreeWithPinuse(m0, lo, hi - lo, hi)
      else m == SetFreeSize(m0, lo, hi - lo)
    requires k.Dv? ==> s.dvsize == 0 || lo <= s.dv < hi
    ensures lo in s.cs && lo < hi
    ensures var t := CarveState(s, lo, hi, hi, k, User);
      && Took(m0, s, m, t, p)
      && (forall q :: q in Pending(t.cs) <==> (q in Pending(s.cs) && (q < lo || q >= hi)) || (q == lo && k.Loose?))
      && ChunkIs(t.cs, lo, Chunk(hi - lo, true, k, s.cs[lo].home))
    ensures m.Keys == m0.Keys
  {
    hide W, HeapOk, ShapeOk, CarveOk, OnlyTags, NewTags, Carve, Took, NextInUse, NextFree, NextTop;
    ShapeOf(m0, s);
    SpanTags(m0, m, s, lo, p, hi, k);
    SpanOk(s, lo, p, hi, k);
    SpanEnds(s, lo, p, hi);
    SpanChunks(s, lo, p, hi);
    SpanNotAtLimit(s, lo, p, hi);
    CarveTakes(m0, m, s, lo, p, hi, k);
    CarvePending(s, lo, hi, hi, k, User);
    CarveAt(s.cs, lo, hi, hi, k, User, lo);
  }

  lemma SpanNotAtLimit(s: State, lo: int, p: int, hi: int)
    requires ShapeOk(s) && Span(s, lo, p, hi) && !NextTop(s, p, hi)
    ensures Placed(s, lo) && hi != s.g[s.cs[lo].home].limit
  {
    hide BinnedIs, DvOk, RecordPlace, TopOk, Linked, Coalesced, NoOverlap, SegsOk, Firsts, Span;
    SpanEnds(s, lo, p, hi);
    assert TileOk(hi, s.cs[hi], s.g[s.cs[hi].home]);
  }

  /** Block p and a free chunk before it become part of top. */
  lemma SpanJoinsTop(m0: Mem, m: Mem, s: State, lo: int, p: int, hi: int)
    requires HeapOk(m0, s) && Span(s, lo, p, hi) && s.cs[p].kind.User? && NextTop(s, p, hi)
    requires lo + HEAD in m0 && m == Put(m0, lo + HEAD, hi - lo + PINUSE_BIT)
    ensures lo in s.cs && lo < hi
    ensures var t := CarveState(s, lo, hi, hi, Top, User);
      && Took(m0, s, m, t, p)
      && (forall q :: q in Pending(t.cs) <==> q in Pending(s.cs) && (q < lo || q >= hi))
    ensures m.Keys == m0.Keys
  {
    hide W, HeapOk, ShapeOk, CarveOk, OnlyTags, NewTags, Carve, Took, NextInUse, NextFree, NextTop;
    ShapeOf(m0, s);
    SpanTopTags(m0, m, s, lo, p, hi);
    SpanOk(s, lo, p, hi, Top);
    SpanEnds(s, lo, p, hi);
    SpanChunks(s, lo, p, hi);
    CarveTakes(m0, m, s, lo, p, hi, Top);
    CarvePending(s, lo, hi, hi, Top, User);
  }

  // One request

  /** From (m0, s) to (m, t), a block for nb bytes has been handed out. */
  ghost predicate GaveSize(m0: Mem, s: State, m: Mem, t: State, p: int, nb: int) {
    p in t.cs && Gave(m0, s, m, t, p, t.cs[p].size) && nb <= t.cs[p].size < nb + MIN_CHUNK_SIZE &&
      Pending(t.cs) == Pending(s.cs)
  }

  /** The same, within the segments there are. */
  ghost predicate GaveBlock(m0: Mem, s: State, m: Mem, t: State, p: int, nb: int) {
    GaveSize(m0, s, m, t, p, nb) && m.Keys == m0.Keys && t.g == s.g && t.order == s.order
  }

  /** The clients have noticed nothing and only chunk p, which had been in its place, is now loose. */
  ghost predicate Loosened(m0: Mem, s: State, m: Mem, t: State, p: int) {
    && Unnoticed(m0, s, m, t) && p in s.cs && p in t.cs && t.cs[p].kind.Loose? && t.cs[p].size == s.cs[p].size
    && m.Keys == m0.Keys && t.g == s.g && t.order == s.order && Pending(t.cs) == Pending(s.cs) + {p}
    && p !in Pending(s.cs)
    && t.dv == s.dv && t.dvsize == s.dvsize && t.top == s.top && t.topsize == s.topsize
  }

  lemma BinLoosened(m0: Mem, m: Mem, s: State, t: State, p: int)
    requires HeapOk(m0, s) && HeapOk(m, t) && FreeWordsOnly(m0, m, s.cs) && p in s.cs && s.cs[p].kind.Binned?
    requires m.Keys == m0.Keys
    requires t == s.(b := t.b, cs := Rekind(s.cs, p, Loose))
    ensures Loosened(m0, s, m, t, p)
  {
    hide HeapOk, Unnoticed, FreeWordsOnly;
    BinsUnnoticed(m0, m, s, t, p, Loose);
  }

  /** After a chunk has been loosened, handing it out whole completes the request. */
  lemma LooseGiven(m0: Mem, s: State, m1: Mem, s1: State, m: Mem, p: int, nb: int)
    requires Loosened(m0, s, m1, s1, p) && nb <= s1.cs[p].size < nb + MIN_CHUNK_SIZE
    requires var n := p + s1.cs[p].size;
      p + HEAD in m1 && n + HEAD in m1 && m == SetInuseAndPinuse(m1, p, s1.cs[p].size)
    ensures var n := p + s1.cs[p].size; var t := CarveState(s1, p, n, n, User, User);
      GaveBlock(m0, s, m, t, p, nb) && t.dv == s1.dv && t.dvsize == s1.dvsize
  {
    hide W, HeapOk, ShapeOk, SetInuseAndPinuse, Pending, Carve, Gave, Kept, Users;
    var n := p + s1.cs[p].size;
    var t := CarveState(s1, p, n, n, User, User);
    ShapeOf(m1, s1);
    OneChunk(s1, p);
    NotDv(s1, p);
    WholeGiven(m1, m, s1, p);
    GaveLater(m0, s, m1, s1, m, t, p, s1.cs[p].size);
    BlockGiven(m0, s, m, t, p, s1.cs[p].size, nb);
  }

  lemma BlockGiven(m0: Mem, s: State, m: Mem, t: State, p: int, size: int, nb: int)
    requires Gave(m0, s, m, t, p, size) && nb <= size < nb + MIN_CHUNK_SIZE
    requires m.Keys == m0.Keys && t.g == s.g && t.order == s.order && Pending(t.cs) == Pending(s.cs)
    ensures GaveBlock(m0, s, m, t, p, nb)
  {
    hide HeapOk, Kept, Pending;
    assert p in Users(t.cs) && Users(t.cs)[p] == size;
  }

  /** After a chunk has been loosened, its front is handed out; the rest, r, is still loose. */
  ghost predicate FrontOut(m0: Mem, s: State, m: Mem, t: State, p: int, nb: int, size: int) {
    && Gave(m0, s, m, t, p, nb) && m.Keys == m0.Keys && t.g == s.g && t.order == s.order
    && Pending(t.cs) == Pending(s.cs) + {p + nb} && p + nb !in Pending(s.cs)
    && p + nb in t.cs && t.cs[p + nb].kind.Loose? && t.cs[p + nb].size == size - nb
    && t.dv == s.dv && t.dvsize == s.dvsize && t.top == s.top && t.topsize == s.topsize
  }

  lemma LooseFrontGiven(m0: Mem, s: State, m1: Mem, s1: State, m: Mem, p: int, nb: int)
    requires HeapOk(m0, s) && Loosened(m0, s, m1, s1, p) && nb % 8 == 0 && nb >= MIN_CHUNK_SIZE
    requires s1.cs[p].size - nb >= MIN_CHUNK_SIZE
    requires SplitWritten(m1, m, p, nb, s1.cs[p].size)
    ensures FrontOut(m0, s, m, CarveState(s1, p, p + nb, p + s1.cs[p].size, User, Loose), p, nb, s1.cs[p].size)
  {
    hide W, HeapOk, ShapeOk, Pending, Carve, Kept, Users, SplitWritten;
    var n := p + s1.cs[p].size;
    var t := CarveState(s1, p, p + nb, n, User, Loose);
    ShapeOf(m1, s1);
    TopNot(s1, p);
    NotDv(s1, p);
    FrontGiven(m1, m, s1, p, nb, Loose);
    SplitKeys(m1, m, p, nb, s1.cs[p].size);
    FrontPending(s, s1, p, nb);
    GaveLater(m0, s, m1, s1, m, t, p, nb);
  }

  lemma NotDv(s: State, p: int)
    requires ShapeOk(s) && p in s.cs && s.cs[p].kind.Loose?
    ensures s.dvsize != 0 ==> !(p <= s.dv < p + s.cs[p].size)
    ensures s.dv == 0 ==> !(p <= s.dv < p + s.cs[p].size)
    ensures s.dvsize == 0 ==> s.dv == 0
  {
    hide BinnedIs, TopOk, RecordPlace, Coalesced;
    DvPositive(s);
    OneChunk(s, p);
  }

  lemma FrontPending(s: State, s1: State, p: int, nb: int)
    requires ShapeOk(s1) && p in s1.cs && 0 < nb < s1.cs[p].size && Pending(s1.cs) == Pending(s.cs) + {p}
    requires p !in Pending(s.cs)
    ensures Pending(s1.cs) - {p} + {p + nb} == Pending(s.cs) + {p + nb} && p + nb !in Pending(s.cs)
  {
    hide ShapeOk;
    OneChunk(s1, p);
    assert p + nb !in Pending(s1.cs);
  }

  /** Once the rest has found a place, the request is complete. */
  lemma FrontDone(m0: Mem, s: State, m1: Mem, s1: State, m: Mem, t: State, p: int, nb: int, size: int)
    requires FrontOut(m0, s, m1, s1, p, nb, size) && Unnoticed(m1, s1, m, t)
    requires m.Keys == m1.Keys && t.g == s1.g && t.order == s1.order && Pending(t.cs) == Pending(s1.cs) - {p + nb}
    ensures GaveBlock(m0, s, m, t, p, nb)
  {
    hide HeapOk, Pending, Gave, Unnoticed;
    GaveBefore(m0, s, m1, s1, m, t, p, nb);
    BlockGiven(m0, s, m, t, p, nb, nb);
  }

  lemma UnnoticedHeap(m0: Mem, s: State, m: Mem, t: State)
    requires Unnoticed(m0, s, m, t)
    ensures HeapOk(m, t)
  {
  }

  lemma GaveHeap(m0: Mem, s: State, m: Mem, t: State, p: int, size: int)
    requires Gave(m0, s, m, t, p, size)
    ensures HeapOk(m, t)
  {
  }

  lemma TookHeap(m0: Mem, s: State, m: Mem, t: State, p: int)
    requires Took(m0, s, m, t, p)
    ensures HeapOk(m, t)
  {
  }

  lemma BlockHeap(m0: Mem, s: State, m: Mem, t: State, p: int, nb: int)
    requires GaveBlock(m0, s, m, t, p, nb)
    ensures HeapOk(m, t)
  {
  }

  // Where to find the tag words

  lemma VictimThere(m: Mem, s: State)
    requires HeapOk(m, s) && s.dvsize != 0
    ensures s.dv in s.cs && s.cs[s.dv].kind.Dv? && s.cs[s.dv].size == s.dvsize && s.dv !in Pending(s.cs) && s.dvsize > 0
  {
  }

  lemma RekindElse(cs: Chunks, p: int, k: Kind, q: int)
    requires p in cs && q != p
    ensures q in Rekind(cs, p, k) <==> q in cs
    ensures q in cs ==> Rekind(cs, p, k)[q] == cs[q]
  {
  }

  lemma LooseMapped(m: Mem, s: State, p: int)
    requires HeapOk(m, s) && p in s.cs && Joinable(s.cs[p].kind)
    ensures p + HEAD in m && p + s.cs[p].size + HEAD in m && p + s.cs[p].size in m && s.cs[p].size >= MIN_CHUNK_SIZE
    ensures forall a :: p <= a < p + s.cs[p].size ==> a in m
    ensures p % 8 == 0 && s.cs[p].size % 8 == 0 && p >= GM_END
  {
    hide W, HeapOk;
    ShapeOf(m, s);
    TagsAt(m, s, p);
    forall a | p <= a < p + s.cs[p].size + 16 ensures a in m {
      ChunkMapped(m, s, p, a);
    }
    ChunkMapped(m, s, p, p);
  }

  lemma PendingAlone(s: State, p: int)
    requires p in s.cs && s.cs[p].kind.Dv?
    ensures Pending(s.cs) - {p} == Pending(s.cs)
  {
  }

  lemma TopMapped(m: Mem, s: State, nb: int)
    requires HeapOk(m, s) && 0 < nb < s.topsize && nb % 8 == 0
    ensures s.order != [] && s.top + HEAD in m && s.top + nb + HEAD in m && s.top > 0
    ensures s.dvsize != 0 ==> !(s.top <= s.dv < s.top + s.topsize)
    ensures s.dvsize == 0 ==> !(s.top <= s.dv < s.top + s.topsize)
  {
    hide W, BinsOk, SegList, FencesOk, TagsOk, BinnedIs, MappedOk, TopOk, Tiling, RecordPlace;
    assert s.order != [] by { TopSized(s); }
    TopPlace(s);
    OneChunk(s, s.top);
    ChunkMapped(m, s, s.top, s.top + HEAD);
    ChunkMapped(m, s, s.top, s.top + nb + HEAD);
  }

  lemma TopSized(s: State)
    requires ShapeOk(s)
    ensures s.order == [] ==> s.topsize == 0
  {
  }

  // New memory in front of a segment

  /** The front of the new memory is handed out, the rest joins what follows it. */
  lemma FrontJoins(m0: Mem, m: Mem, s: State, p: int, mid: int, hi: int, k: Kind)
    requires HeapOk(m0, s) && Span(s, p, p, hi) && s.cs[p].kind.Fresh?
    requires p + MIN_CHUNK_SIZE <= mid <= hi - MIN_CHUNK_SIZE && mid % 8 == 0
    requires Joinable(k) && !NextTop(s, p, hi) && (k.Dv? ==> s.dvsize == 0 || p <= s.dv < hi)
    requires W(m0, p + HEAD) == MkHead(mid - p, true, true)
    requires mid + HEAD in m0 && hi in m0 && hi + HEAD in m0
    requires m == SetFreeWithPinuse(m0, mid, hi - mid, hi) || (m == SetFreeSize(m0, mid, hi - mid) &&
                                                               !NextInUse(s, p, hi))
    ensures var t := CarveState(s, p, mid, hi, User, k);
      && Gave(m0, s, m, t, p, mid - p)
      && (forall q :: q in Pending(t.cs) <==> (q in Pending(s.cs) && (q < p || q >= hi)) || (q == mid && k.Loose?))
      && ChunkIs(t.cs, mid, Chunk(hi - mid, true, k, s.cs[p].home))
    ensures m.Keys == m0.Keys
  {
    hide W, HeapOk, ShapeOk, CarveOk, OnlyTags, NewTags, Carve, Gave, NextInUse, NextFree, NextTop, MkHead;
    ShapeOf(m0, s);
    FrontTags(m0, m, s, p, mid, hi, k);
    FrontOk(s, p, mid, hi, k);
    SpanEnds(s, p, p, hi);
    SpanChunks(s, p, p, hi);
    SpanNotAtLimit(s, p, p, hi);
    CarveGives(m0, m, s, p, mid, hi, k);
    CarvePending(s, p, mid, hi, User, k);
    CarveAt(s.cs, p, mid, hi, User, k, mid);
  }

  lemma FrontJoinsTop(m0: Mem, m: Mem, s: State, p: int, mid: int, hi: int)
    requires HeapOk(m0, s) && Span(s, p, p, hi) && s.cs[p].kind.Fresh?
    requires p + MIN_CHUNK_SIZE <= mid <= hi - MIN_CHUNK_SIZE && mid % 8 == 0
    requires NextTop(s, p, hi)
    requires W(m0, p + HEAD) == MkHead(mid - p, true, true)
    requires mid + HEAD in m0 && m == Put(m0, mid + HEAD, hi - mid + PINUSE_BIT)
    ensures var t := CarveState(s, p, mid, hi, User, Top);
      && Gave(m0, s, m, t, p, mid - p)
      && (forall q :: q in Pending(t.cs) <==> q in Pending(s.cs) && (q < p || q >= hi))
    ensures m.Keys == m0.Keys
  {
    hide W, HeapOk, ShapeOk, CarveOk, OnlyTags, NewTags, Carve, Gave, NextInUse, NextFree, NextTop, MkHead;
    ShapeOf(m0, s);
    FrontTopTags(m0, m, s, p, mid, hi);
    FrontOk(s, p, mid, hi, Top);
    SpanEnds(s, p, p, hi);
    SpanChunks(s, p, p, hi);
    CarveGives(m0, m, s, p, mid, hi, Top);
    CarvePending(s, p, mid, hi, User, Top);
  }

  lemma SizeGiven(m0: Mem, s: State, m: Mem, t: State, p: int, size: int, nb: int)
    requires Gave(m0, s, m, t, p, size) && nb <= size < nb + MIN_CHUNK_SIZE && Pending(t.cs) == Pending(s.cs)
    ensures GaveSize(m0, s, m, t, p, nb)
  {
    hide HeapOk, Kept, Pending;
    assert p in Users(t.cs) && Users(t.cs)[p] == size;
  }

  lemma SizeLater(m0: Mem, s: State, m1: Mem, s1: State, m: Mem, t: State, p: int, nb: int)
    requires Unnoticed(m0, s, m1, s1) && GaveSize(m1, s1, m, t, p, nb) && Pending(s1.cs) == Pending(s.cs)
    ensures GaveSize(m0, s, m, t, p, nb)
  {
    hide HeapOk, Pending, Unnoticed, Gave;
    GaveLater(m0, s, m1, s1, m, t, p, t.cs[p].size);
  }

  lemma BlockIsSize(m0: Mem, s: State, m: Mem, t: State, p: int, nb: int)
    requires GaveBlock(m0, s, m, t, p, nb)
    ensures GaveSize(m0, s, m, t, p, nb) && Pending(t.cs) == Pending(s.cs) && t.g == s.g && t.order == s.order
  {
    hide Gave, Pending;
  }

  lemma NoFootprint(s: State)
    requires s.order == []
    ensures Footprint(s.g, s.order) == 0
  {
  }

  lemma SizeAligned(m0: Mem, s: State, m: Mem, t: State, p: int, nb: int)
    requires GaveSize(m0, s, m, t, p, nb)
    ensures p % 8 == 0 && Pending(t.cs) == Pending(s.cs) && HeapOk(m, t) && p >= GM_END
  {
    hide W, HeapOk, ShapeOk, Pending;
    ShapeOf(m, t);
    OneChunk(t, p);
    DvPositive(t);
  }

  lemma VictimBounded(m: Mem, s: State)
    requires HeapOk(m, s)
    ensures 0 <= s.dvsize < TWO64 - 8 && s.topsize < TWO64 - 8
    ensures s.dvsize % 8 == 0
  {
    hide W, BinsOk, Linked, Coalesced, NoOverlap, Firsts, SegList, FencesOk, TagsOk, BinnedIs, MappedOk, RecordPlace;
    if s.dvsize != 0 {
      assert SegOk(s.g[s.cs[s.dv].home]);
    }
    if s.order != [] {
      assert SegOk(s.g[s.order[0]]);
    }
  }

  lemma VictimSize(m: Mem, s: State, p: int)
    requires HeapOk(m, s) && p in s.cs && s.cs[p].kind.Dv?
    ensures s.dv == p && s.dvsize == s.cs[p].size && s.dvsize > 0
  {
    hide W, HeapOk, ShapeOk;
    ShapeOf(m, s);
    TopNot(s, p);
    OneChunk(s, p);
  }
}
