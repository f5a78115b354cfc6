/** The binned free chunks: 32 small bins (rings through a header) and 32 tries, with their bitmaps. */
module Bins {
  import opened BinIndex
  import opened BitMaps
  import opened Rings
  import opened Tries
  import opened TrieMem
  import opened Words

  /** The binned chunks and their sizes: aligned, above the allocator's own state, and disjoint. */
  ghost predicate BnOk(bn: map<int, int>) {
    && (forall p :: p in bn ==> ChunkOk(p, bn[p]))
    && (forall p, q :: p in bn && q in bn && p != q ==> p + bn[p] <= q || q + bn[q] <= p)
  }

  ghost predicate ChunkOk(p: int, s: int) {
    p >= GM_END && p % 8 == 0 && s % 8 == 0 && MIN_CHUNK_SIZE <= s && p + s < TWO64
  }

  function SmallIndex(s: int): int {
    s / 8
  }

  predicate IsSmall(s: int) {
    s < MIN_LARGE_SIZE
  }

  /** Small bin i holds exactly the binned chunks of size 8 * i, ringed through its header. */
  ghost predicate SmallBin(m: Mem, smallmap: Bits, i: int, list: seq<int>, bn: map<int, int>)
    requires 0 <= i < 32
  {
    && (smallmap[i] <==> list != [])
    && (list != [] ==> RingRep(m, [SB(i)] + list))
    && Distinct(list)
    && (forall p :: p in list ==> p in bn && bn[p] == 8 * i)
    && (forall p :: p in bn && bn[p] == 8 * i ==> p in list)
  }

  predicate InTreeClass(s: int, i: int) {
    s >= MIN_LARGE_SIZE && TreeIndex(s) == i
  }

  /** Tree bin i holds exactly the binned chunks whose size has tree index i, in a well-formed trie. */
  ghost predicate TreeBin(m: Mem, treemap: Bits, i: int, t: Trie, bn: map<int, int>)
    requires 0 <= i < 32
  {
    && (treemap[i] <==> t.Node?)
    && TreeRep(m, W(m, TB(i)), TB(i), i, t)
    && TrieOk(t, BinBase(i), BinWidth(i), bn)
    && (forall p :: p in Elems(t) ==> p in bn && InTreeClass(bn[p], i))
    && (forall p :: p in bn && InTreeClass(bn[p], i) ==> p in Elems(t))
  }

  /** The state of all bins. */
  datatype BinState = BinState(smallmap: Bits, treemap: Bits, small: seq<seq<int>>, trees: seq<Trie>, bn: map<int, int>)

  ghost predicate SmallBins(m: Mem, b: BinState) {
    |b.small| == 32 && forall i :: 0 <= i < 32 ==> SmallBin(m, b.smallmap, i, b.small[i], b.bn)
  }

  ghost predicate TreeBins(m: Mem, b: BinState) {
    |b.trees| == 32 && forall i :: 0 <= i < 32 ==> TreeBin(m, b.treemap, i, b.trees[i], b.bn)
  }

  ghost predicate BinsOk(m: Mem, b: BinState) {
    BnOk(b.bn) && SmallBins(m, b) && TreeBins(m, b)
  }

  // Frames

  lemma SmallBinFrame(m: Mem, m': Mem, map0: Bits, map1: Bits, i: int, list: seq<int>, bn: map<int, int>,
                      bn': map<int, int>)
    requires 0 <= i < 32 && SmallBin(m, map0, i, list, bn) && map1[i] == map0[i]
    requires list != [] ==> W(m', SB(i) + FD) == W(m, SB(i) + FD) && W(m', SB(i) + BK) == W(m, SB(i) + BK)
    requires forall p :: p in list ==> W(m', p + FD) == W(m, p + FD) && W(m', p + BK) == W(m, p + BK)
    requires forall p :: (p in bn' && bn'[p] == 8 * i) <==> (p in bn && bn[p] == 8 * i)
    ensures SmallBin(m', map1, i, list, bn')
  {
    hide W, NextOf, PrevOf;
    if list != [] {
      var r := [SB(i)] + list;
      forall k | 0 <= k < |r|
        ensures W(m', r[k] + FD) == W(m, r[k] + FD) && W(m', r[k] + BK) == W(m, r[k] + BK)
      {
        assert k > 0 ==> r[k] == list[k - 1] && list[k - 1] in list;
      }
      RingFrame(m, m', r);
    }
  }

  lemma TreeBinFrame(m: Mem, m': Mem, map0: Bits, map1: Bits, i: int, t: Trie, bn: map<int, int>, bn': map<int, int>)
    requires 0 <= i < 32 && TreeBin(m, map0, i, t, bn) && map1[i] == map0[i]
    requires W(m', TB(i)) == W(m, TB(i))
    requires SameOn(m, m', Elems(t))
    requires forall p :: (p in bn' && InTreeClass(bn'[p], i)) <==> (p in bn && InTreeClass(bn[p], i))
    requires forall p :: p in bn && p in bn' && InTreeClass(bn[p], i) ==> bn'[p] == bn[p]
    ensures TreeBin(m', map1, i, t, bn')
  {
    hide W, TreeIndex, BinWidth, BinBase, SameOn, TreeRep;
    BinRange(i);
    TrieOkNoRepeats(t, BinBase(i), BinWidth(i), bn);
    TreeFrame(m, m', W(m, TB(i)), TB(i), i, t);
    assert forall p :: p in Elems(t) ==> p in bn' && bn'[p] == bn[p];
    TrieOkFrame(t, BinBase(i), BinWidth(i), bn, bn');
  }

  /** Words outside [lo, hi) and outside the link areas of the chunks in e are unchanged. */
  ghost predicate KeptOutside(m: Mem, m': Mem, bn: map<int, int>, e: set<int>, lo: int, hi: int) {
    forall a {:trigger W(m', a)} ::
      (a < lo || a >= hi) && (forall p :: p in e && p in bn ==> a < p + FD || a >= p + bn[p])
      ==> W(m', a) == W(m, a)
  }

  lemma KeptWord(m: Mem, m': Mem, bn: map<int, int>, e: set<int>, lo: int, hi: int, q: int, a: int)
    requires BnOk(bn) && KeptOutside(m, m', bn, e, lo, hi) && hi <= GM_END
    requires q in bn && q !in e && q <= a < q + bn[q]
    ensures W(m', a) == W(m, a)
  {
    hide W;
  }

  /** A small bin none of whose chunks is touched. */
  lemma SmallBinKept(m: Mem, m': Mem, map0: Bits, map1: Bits, j: int, list: seq<int>, bn: map<int, int>,
                     bn': map<int, int>,
                     all: map<int, int>, e: set<int>, lo: int, hi: int)
    requires 0 <= j < 32 && SmallBin(m, map0, j, list, bn) && map1[j] == map0[j]
    requires BnOk(all) && KeptOutside(m, m', all, e, lo, hi) && hi <= GM_END
    requires forall p :: p in e ==> p in all
    requires SB(j) + BK < lo || hi <= SB(j) + FD
    requires forall p :: p in bn && p !in e ==> p in all && all[p] == bn[p]
    requires forall p :: p in bn && bn[p] == 8 * j ==> p !in e
    requires forall p :: (p in bn' && bn'[p] == 8 * j) <==> (p in bn && bn[p] == 8 * j)
    ensures SmallBin(m', map1, j, list, bn')
  {
    hide W, RingRep;
    forall p | p in list
      ensures W(m', p + FD) == W(m, p + FD) && W(m', p + BK) == W(m, p + BK)
    {
      KeptWord(m, m', all, e, lo, hi, p, p + FD);
      KeptWord(m, m', all, e, lo, hi, p, p + BK);
    }
    SmallBinFrame(m, m', map0, map1, j, list, bn, bn');
  }

  /** A tree bin none of whose chunks is touched. */
  lemma TreeBinKept(m: Mem, m': Mem, map0: Bits, map1: Bits, j: int, t: Trie, bn: map<int, int>, bn': map<int, int>,
                    all: map<int, int>, e: set<int>, lo: int, hi: int)
    requires 0 <= j < 32 && TreeBin(m, map0, j, t, bn) && map1[j] == map0[j]
    requires BnOk(all) && KeptOutside(m, m', all, e, lo, hi) && hi <= GM_END
    requires forall p :: p in e ==> p in all
    requires TB(j) < lo || hi <= TB(j)
    requires forall p :: p in bn && p !in e ==> p in all && all[p] == bn[p]
    requires forall p :: p in bn && InTreeClass(bn[p], j) ==> p !in e
    requires forall p :: (p in bn' && InTreeClass(bn'[p], j)) <==> (p in bn && InTreeClass(bn[p], j))
    requires forall p :: p in bn && p in bn' && InTreeClass(bn[p], j) ==> bn'[p] == bn[p]
    ensures TreeBin(m', map1, j, t, bn')
  {
    hide W, TreeRep, TrieOk, TreeIndex;
    forall p | p in Elems(t)
      ensures SameNode(m, m', p) && SameKids(m, m', p)
    {
      KeptLinks(m, m', all, e, lo, hi, p);
    }
    TreeBinFrame(m, m', map0, map1, j, t, bn, bn');
  }

  lemma KeptLinks(m: Mem, m': Mem, bn: map<int, int>, e: set<int>, lo: int, hi: int, q: int)
    requires BnOk(bn) && KeptOutside(m, m', bn, e, lo, hi) && hi <= GM_END
    requires q in bn && q !in e && bn[q] >= TCHUNK_SIZE
    ensures SameNode(m, m', q) && SameKids(m, m', q)
  {
    hide KeptOutside, BnOk, W;
    KeptWord(m, m', bn, e, lo, hi, q, q + FD);
    KeptWord(m, m', bn, e, lo, hi, q, q + BK);
    KeptWord(m, m', bn, e, lo, hi, q, q + CHILD0);
    KeptWord(m, m', bn, e, lo, hi, q, q + CHILD1);
    KeptWord(m, m', bn, e, lo, hi, q, q + PARENT);
    KeptWord(m, m', bn, e, lo, hi, q, q + INDEX);
  }

  // Small bins

  /** Exactly the four words that link x in behind the header of bin i have changed. */
  ghost predicate SmallLinkedIn(m: Mem, m': Mem, i: int, f: int, x: int) {
    && W(m', SB(i) + FD) == x && W(m', f + BK) == x && W(m', x + FD) == f && W(m', x + BK) == SB(i)
    && forall a :: a != SB(i) + FD && a != f + BK && a != x + FD && a != x + BK ==> W(m', a) == W(m, a)
  }

  lemma SpacedBin(i: int, list: seq<int>, bn: map<int, int>)
    requires 0 <= i < 32 && BnOk(bn) && Distinct(list) && forall p :: p in list ==> p in bn
    ensures Spaced([SB(i)] + list)
  {
    var r := [SB(i)] + list;
    forall j, k | 0 <= j < k < |r|
      ensures r[j] + 16 <= r[k] || r[k] + 16 <= r[j]
    {
      assert r[k] == list[k - 1] && list[k - 1] in list;
      if j > 0 {
        assert r[j] == list[j - 1] && list[j - 1] in list;
      }
    }
  }

  /** Four writes to words that no other member owns link x in. */
  lemma WritesLinkIn(m: Mem, m': Mem, r: seq<int>, x: int)
    requires r != [] && Spaced(r) && AwayFrom(r, x)
    requires var f := NextOf(r, 0);
      && W(m', r[0] + FD) == x && W(m', f + BK) == x && W(m', x + FD) == f && W(m', x + BK) == r[0]
      && forall a :: a != r[0] + FD && a != f + BK && a != x + FD && a != x + BK ==> W(m', a) == W(m, a)
    ensures LinkedIn(m, m', r, x)
  {
    hide W;
  }

  lemma SmallRingStarts(m': Mem, i: int, x: int)
    requires W(m', SB(i) + FD) == x && W(m', SB(i) + BK) == x && W(m', x + FD) == SB(i) && W(m', x + BK) == SB(i)
    ensures RingRep(m', [SB(i)] + ([x] + []))
  {
    hide W;
    assert [SB(i)] + ([x] + []) == [SB(i), x];
  }

  lemma SmallRingGrows(m: Mem, m': Mem, i: int, list: seq<int>, f: int, x: int)
    requires list != [] && f == W(m, SB(i) + FD) && SmallLinkedIn(m, m', i, f, x)
    requires RingRep(m, [SB(i)] + list) && Spaced([SB(i)] + list) && AwayFrom([SB(i)] + list, x)
    ensures RingRep(m', [SB(i)] + ([x] + list))
  {
    hide W, Spaced, AwayFrom, RingRep, NextOf;
    var r := [SB(i)] + list;
    HeadLink(m, r);
    WritesLinkIn(m, m', r, x);
    InsertAfterHead(m, m', r, x);
    assert [SB(i)] + ([x] + list) == [r[0], x] + r[1..];
  }

  lemma HeadLink(m: Mem, r: seq<int>)
    requires r != [] && RingRep(m, r)
    ensures W(m, r[0] + FD) == NextOf(r, 0) && W(m, r[0] + BK) == PrevOf(r, 0)
  {
  }

  lemma ConsDistinct(x: int, list: seq<int>)
    requires Distinct(list) && x !in list
    ensures Distinct([x] + list)
    ensures forall p :: p in [x] + list <==> p == x || p in list
  {
  }

  lemma SmallLinkFacts(m: Mem, m': Mem, i: int, f: int, x: int)
    requires SmallLinkedIn(m, m', i, f, x)
    ensures W(m', SB(i) + FD) == x && W(m', f + BK) == x && W(m', x + FD) == f && W(m', x + BK) == SB(i)
  {
  }

  /** insert_small_chunk on its own bin. */
  lemma InsertOwnSmall(m: Mem, m': Mem, b: BinState, i: int, f: int, x: int)
    requires 4 <= i < 32 && |b.small| == 32 && SmallBin(m, b.smallmap, i, b.small[i], b.bn)
    requires x !in b.bn && BnOk(b.bn[x := 8 * i])
    requires f == if b.smallmap[i] then W(m, SB(i) + FD) else SB(i)
    requires SmallLinkedIn(m, m', i, f, x)
    ensures SmallBin(m', Mark(b.smallmap, i), i, [x] + b.small[i], b.bn[x := 8 * i])
  {
    hide W, RingRep, Spaced, AwayFrom, SmallLinkedIn, Distinct, BnOk;
    var list := b.small[i];
    var bn' := b.bn[x := 8 * i];
    if list == [] {
      SmallLinkFacts(m, m', i, f, x);
      SmallRingStarts(m', i, x);
    } else {
      SpacedBin(i, list, bn');
      AwayFromBin(i, list, bn', x);
      SmallRingGrows(m, m', i, list, f, x);
    }
    ConsDistinct(x, list);
  }

  lemma AwayFromBin(i: int, list: seq<int>, bn: map<int, int>, x: int)
    requires 0 <= i < 32 && BnOk(bn) && x in bn && forall p :: p in list ==> p in bn && p != x
    ensures AwayFrom([SB(i)] + list, x)
  {
    var r := [SB(i)] + list;
    forall k | 0 <= k < |r|
      ensures r[k] + 16 <= x || x + 16 <= r[k]
    {
      assert k > 0 ==> r[k] == list[k - 1] && list[k - 1] in list;
    }
  }

  /** The writes of insert_small_chunk stay within the bin's header, its old front chunk and x. */
  lemma SmallWritesKept(m: Mem, m': Mem, i: int, f: int, x: int, all: map<int, int>)
    requires SmallLinkedIn(m, m', i, f, x) && BnOk(all) && x in all && (f == SB(i) || f in all)
    ensures KeptOutside(m, m', all, {x, f} * all.Keys, SB(i) + FD, SB(i) + FD + 16)
  {
    hide W;
  }

  function InsertedSmall(b: BinState, i: int, x: int): BinState
    requires 0 <= i < |b.small| && i < 32
  {
    b.(smallmap := Mark(b.smallmap, i), small := b.small[i := [x] + b.small[i]], bn := b.bn[x := 8 * i])
  }

  /** Two size maps agree outside e. */
  ghost predicate AgreeOutside(bn: map<int, int>, bn': map<int, int>, e: set<int>) {
    forall p :: p !in e ==> (p in bn <==> p in bn') && (p in bn && p in bn' ==> bn[p] == bn'[p])
  }

  /** Every chunk of e, wherever it is binned, is in small bin i. */
  ghost predicate AllSmall(bn: map<int, int>, e: set<int>, i: int) {
    forall p :: p in e && p in bn ==> bn[p] == 8 * i
  }

  ghost predicate AllLarge(bn: map<int, int>, e: set<int>, i: int) {
    forall p :: p in e && p in bn ==> InTreeClass(bn[p], i)
  }

  /** An operation on small bin i leaves all other bins alone. */
  lemma SmallOpKeeps(m: Mem, m': Mem, b: BinState, b': BinState, i: int, all: map<int, int>, e: set<int>)
    requires 0 <= i < 32 && SmallBins(m, b) && TreeBins(m, b) && BnOk(all) && e <= all.Keys
    requires KeptOutside(m, m', all, e, SB(i) + FD, SB(i) + FD + 16)
    requires AgreeOutside(b.bn, b'.bn, e) && AgreeOutside(b.bn, all, e) && AllSmall(b.bn, e, i) && AllSmall(b'.bn, e, i)
    requires b'.treemap == b.treemap && b'.trees == b.trees
    requires |b'.small| == 32
    requires forall j :: 0 <= j < 32 && j != i ==> b'.small[j] == b.small[j] && b'.smallmap[j] == b.smallmap[j]
    requires SmallBin(m', b'.smallmap, i, b'.small[i], b'.bn)
    ensures SmallBins(m', b') && TreeBins(m', b')
  {
    hide W, SmallBin, TreeBin, BnOk, KeptOutside, TreeIndex;
    forall j | 0 <= j < 32
      ensures SmallBin(m', b'.smallmap, j, b'.small[j], b'.bn)
      ensures TreeBin(m', b'.treemap, j, b'.trees[j], b'.bn)
    {
      if j != i {
        SmallBinKept(m, m', b.smallmap, b'.smallmap, j, b.small[j], b.bn, b'.bn, all, e, SB(i) + FD, SB(i) + FD + 16);
      }
      TreeBinKept(m, m', b.treemap, b'.treemap, j, b.trees[j], b.bn, b'.bn, all, e, SB(i) + FD, SB(i) + FD + 16);
    }
  }

  /** An operation on tree bin i leaves all other bins alone. */
  lemma TreeOpKeeps(m: Mem, m': Mem, b: BinState, b': BinState, i: int, all: map<int, int>, e: set<int>)
    requires 0 <= i < 32 && SmallBins(m, b) && TreeBins(m, b) && BnOk(all) && e <= all.Keys
    requires KeptOutside(m, m', all, e, TB(i), TB(i) + 8)
    requires AgreeOutside(b.bn, b'.bn, e) && AgreeOutside(b.bn, all, e) && AllLarge(b.bn, e, i) && AllLarge(b'.bn, e, i)
    requires b'.smallmap == b.smallmap && b'.small == b.small
    requires |b'.trees| == 32
    requires forall j :: 0 <= j < 32 && j != i ==> b'.trees[j] == b.trees[j] && b'.treemap[j] == b.treemap[j]
    requires TreeBin(m', b'.treemap, i, b'.trees[i], b'.bn)
    ensures SmallBins(m', b') && TreeBins(m', b')
  {
    hide W, SmallBin, TreeBin, BnOk, KeptOutside, TreeIndex;
    forall j | 0 <= j < 32
      ensures SmallBin(m', b'.smallmap, j, b'.small[j], b'.bn)
      ensures TreeBin(m', b'.treemap, j, b'.trees[j], b'.bn)
    {
      SmallBinKept(m, m', b.smallmap, b'.smallmap, j, b.small[j], b.bn, b'.bn, all, e, TB(i), TB(i) + 8);
      if j != i {
        TreeBinKept(m, m', b.treemap, b'.treemap, j, b.trees[j], b.bn, b'.bn, all, e, TB(i), TB(i) + 8);
      }
    }
  }

  /** Widening a frame to all link areas and the whole of the allocator's bin arrays. */
  lemma KeptWidens(m: Mem, m': Mem, all: map<int, int>, e: set<int>, lo: int, hi: int)
    requires KeptOutside(m, m', all, e, lo, hi) && e <= all.Keys && SMALLBINS <= lo && hi <= GM_SEG
    ensures KeptOutside(m, m', all, all.Keys, SMALLBINS, GM_SEG)
  {
    hide W;
  }

  /** insert_small_chunk keeps all bins and adds exactly x. */
  lemma InsertSmallOk(m: Mem, m': Mem, b: BinState, i: int, f: int, x: int)
    requires 4 <= i < 32 && BinsOk(m, b) && x !in b.bn && BnOk(b.bn[x := 8 * i])
    requires f == if b.smallmap[i] then W(m, SB(i) + FD) else SB(i)
    requires SmallLinkedIn(m, m', i, f, x)
    ensures BinsOk(m', InsertedSmall(b, i, x))
    ensures KeptOutside(m, m', b.bn[x := 8 * i], b.bn.Keys + {x}, SMALLBINS, GM_SEG)
  {
    hide W, SmallLinkedIn, SmallBin, TreeBin, BnOk, KeptOutside, Mark, TreeIndex;
    var all := b.bn[x := 8 * i];
    HeaderNotBinned(b.bn, i);
    FrontOfBin(m, b, i);
    InsertOwnSmall(m, m', b, i, f, x);
    SmallWritesKept(m, m', i, f, x, all);
    OthersAlikeIn(b, i, x, {x, f} * all.Keys);
    SmallOpKeeps(m, m', b, InsertedSmall(b, i, x), i, all, {x, f} * all.Keys);
    KeptWidens(m, m', all, {x, f} * all.Keys, SB(i) + FD, SB(i) + FD + 16);
    assert all.Keys == b.bn.Keys + {x};
  }

  lemma HeaderNotBinned(bn: map<int, int>, i: int)
    requires BnOk(bn) && 0 <= i < 32
    ensures SB(i) !in bn
  {
  }

  lemma OthersAlikeIn(b: BinState, i: int, x: int, e: set<int>)
    requires 0 <= i < 32 && |b.small| == 32 && x !in b.bn && x in e && AllSmall(b.bn, e, i)
    ensures var b' := InsertedSmall(b, i, x); var all := b.bn[x := 8 * i];
      && AgreeOutside(b.bn, b'.bn, e) && AgreeOutside(b.bn, all, e) && AllSmall(b'.bn, e, i)
      && b'.treemap == b.treemap && b'.trees == b.trees && |b'.small| == 32
      && forall l :: 0 <= l < 32 && l != i ==> b'.small[l] == b.small[l] && b'.smallmap[l] == b.smallmap[l]
  {
  }

  lemma FrontOfBin(m: Mem, b: BinState, i: int)
    requires 0 <= i < 32 && BinsOk(m, b)
    ensures b.smallmap[i] ==>
      b.small[i] != [] && W(m, SB(i) + FD) == b.small[i][0] && b.small[i][0] in b.bn && b.bn[b.small[i][0]] == 8 * i
  {
    hide W;
    if b.smallmap[i] {
      assert SmallBin(m, b.smallmap, i, b.small[i], b.bn);
      HeadLink(m, [SB(i)] + b.small[i]);
      assert b.small[i][0] in b.small[i];
    }
  }

  // Taking a chunk out of its small bin

  /** unlink_small_chunk and unlink_first_small_chunk: bridge over x, or just clear the bit for the last one. */
  ghost predicate SmallLinkedOut(m: Mem, m': Mem, f: int, k: int) {
    if f == k then m' == m
    else
      && W(m', f + BK) == k && W(m', k + FD) == f
      && forall a :: a != f + BK && a != k + FD ==> W(m', a) == W(m, a)
  }

  lemma WritesLinkOut(m: Mem, m': Mem, r: seq<int>, j: int)
    requires 0 <= j < |r| && |r| >= 3 && Spaced(r)
    requires SmallLinkedOut(m, m', NextOf(r, j), PrevOf(r, j))
    ensures LinkedOut(m, m', r, j)
  {
    hide W;
  }

  /** The neighbours of a binned small chunk coincide exactly when it is alone in its bin. */
  lemma SmallNeighbours(m: Mem, b: BinState, i: int, j: int)
    requires 0 <= i < 32 && |b.small| == 32 && SmallBin(m, b.smallmap, i, b.small[i], b.bn) && BnOk(b.bn)
    requires 0 <= j < |b.small[i]|
    ensures var r := [SB(i)] + b.small[i];
      && Spaced(r) && RingRep(m, r)
      && W(m, r[j + 1] + FD) == NextOf(r, j + 1) && W(m, r[j + 1] + BK) == PrevOf(r, j + 1)
      && (NextOf(r, j + 1) == PrevOf(r, j + 1) <==> |b.small[i]| == 1)
  {
    hide W;
    SpacedBin(i, b.small[i], b.bn);
  }

  function RemovedSmall(b: BinState, i: int, j: int): BinState
    requires 0 <= i < |b.small| && i < 32 && 0 <= j < |b.small[i]|
  {
    var list := b.small[i];
    b.(smallmap := if |list| == 1 then Clear(b.smallmap, i) else b.smallmap,
       small := b.small[i := Without(list, j)],
       bn := b.bn - {list[j]})
  }

  lemma RemoveOwnSmall(m: Mem, m': Mem, b: BinState, i: int, j: int)
    requires 0 <= i < 32 && |b.small| == 32 && SmallBin(m, b.smallmap, i, b.small[i], b.bn) && BnOk(b.bn)
    requires 0 <= j < |b.small[i]|
    requires var x := b.small[i][j]; SmallLinkedOut(m, m', W(m, x + FD), W(m, x + BK))
    ensures var b' := RemovedSmall(b, i, j); SmallBin(m', b'.smallmap, i, b'.small[i], b'.bn)
  {
    hide W, RingRep, Spaced, SmallLinkedOut, NextOf, PrevOf, BnOk;
    var list := b.small[i];
    var r := [SB(i)] + list;
    assert r[j + 1] == list[j];
    SmallNeighbours(m, b, i, j);
    TakenFromList(list, j);
    if |list| > 1 {
      WritesLinkOut(m, m', r, j + 1);
      Unlink(m, m', r, j + 1);
      assert Without(r, j + 1) == [SB(i)] + Without(list, j);
    } else {
      assert Without(list, j) == [];
    }
  }

  lemma TakenFromList(list: seq<int>, j: int)
    requires 0 <= j < |list| && Distinct(list)
    ensures Distinct(Without(list, j))
    ensures forall p :: p in Without(list, j) <==> p in list && p != list[j]
  {
    WithoutSet(list, j);
  }

  lemma LinkedOutKept(m: Mem, m': Mem, i: int, f: int, k: int, all: map<int, int>)
    requires SmallLinkedOut(m, m', f, k) && BnOk(all) && 0 <= i < 32
    requires (f == SB(i) || f in all) && (k == SB(i) || k in all)
    ensures KeptOutside(m, m', all, {f, k} * all.Keys, SB(i) + FD, SB(i) + FD + 16)
  {
    hide W;
  }

  /** Removing a small chunk keeps all bins and takes out exactly it. */
  lemma RemoveSmallOk(m: Mem, m': Mem, b: BinState, i: int, j: int)
    requires 0 <= i < 32 && BinsOk(m, b) && 0 <= j < |b.small[i]|
    requires var x := b.small[i][j]; SmallLinkedOut(m, m', W(m, x + FD), W(m, x + BK))
    ensures BinsOk(m', RemovedSmall(b, i, j))
    ensures KeptOutside(m, m', b.bn, b.bn.Keys, SMALLBINS, GM_SEG)
  {
    hide W, SmallLinkedOut, SmallBin, TreeBin, BnOk, KeptOutside, Without, Clear, TreeIndex;
    var x := b.small[i][j];
    var f, k := W(m, x + FD), W(m, x + BK);
    NeighboursBinned(m, b, i, j);
    OneLess(b.bn, x);
    RemoveOwnSmall(m, m', b, i, j);
    LinkedOutKept(m, m', i, f, k, b.bn);
    var e := {f, k, x} * b.bn.Keys;
    KeptGrows(m, m', b.bn, {f, k} * b.bn.Keys, e, SB(i) + FD, SB(i) + FD + 16);
    OthersAlike(b, i, j, e);
    SmallOpKeeps(m, m', b, RemovedSmall(b, i, j), i, b.bn, e);
    KeptWidens(m, m', b.bn, e, SB(i) + FD, SB(i) + FD + 16);
  }

  lemma OneLess(bn: map<int, int>, x: int)
    requires BnOk(bn)
    ensures BnOk(bn - {x})
  {
  }

  lemma OthersAlike(b: BinState, i: int, j: int, e: set<int>)
    requires 0 <= i < 32 && |b.small| == 32 && 0 <= j < |b.small[i]| && b.small[i][j] in e && AllSmall(b.bn, e, i)
    ensures var b' := RemovedSmall(b, i, j);
      && AgreeOutside(b.bn, b'.bn, e) && AllSmall(b'.bn, e, i) && b'.treemap == b.treemap && b'.trees == b.trees
      && |b'.small| == 32
      && forall l :: 0 <= l < 32 && l != i ==> b'.small[l] == b.small[l] && b'.smallmap[l] == b.smallmap[l]
  {
  }

  lemma KeptGrows(m: Mem, m': Mem, all: map<int, int>, e: set<int>, e': set<int>, lo: int, hi: int)
    requires KeptOutside(m, m', all, e, lo, hi) && e <= e'
    ensures KeptOutside(m, m', all, e', lo, hi)
  {
    hide W;
  }

  lemma NeighboursBinned(m: Mem, b: BinState, i: int, j: int)
    requires 0 <= i < 32 && BinsOk(m, b) && 0 <= j < |b.small[i]|
    ensures var x := b.small[i][j]; var f, k := W(m, x + FD), W(m, x + BK);
      && x in b.bn && b.bn[x] == 8 * i
      && SB(i) !in b.bn
      && (f == SB(i) || (f in b.bn && b.bn[f] == 8 * i))
      && (k == SB(i) || (k in b.bn && b.bn[k] == 8 * i))
  {
    hide W, RingRep, Spaced;
    var list := b.small[i];
    assert SmallBin(m, b.smallmap, i, list, b.bn);
    var r := [SB(i)] + list;
    assert r[j + 1] == list[j] && list[j] in list;
    SmallNeighbours(m, b, i, j);
    assert j + 1 < |list| ==> r[j + 2] == list[j + 1] && list[j + 1] in list;
    assert j > 0 ==> r[j] == list[j - 1] && list[j - 1] in list;
  }
}
