/** The searches that dlmalloc.c's checker makes in the bins: bin_find finds a chunk exactly if it is binned. */
module BinCheck {
  import opened BestFit
  import opened BinIndex
  import opened Bins
  import opened BitMaps
  import opened Rings
  import opened Tries
  import opened TrieMem
  import opened TreeSearch
  import opened Words

  ghost predicate RingReadable(m: Mem, r: seq<int>) {
    r != [] && RingRep(m, r) && Distinct(r) && forall k :: 0 <= k < |r| ==> r[k] + FD in m
  }

  lemma RingTurn(m: Mem, r: seq<int>, k: int)
    requires RingReadable(m, r) && 0 <= k < |r|
    ensures r[k] + FD in m && W(m, r[k] + FD) == NextOf(r, k)
    ensures NextOf(r, k) == r[0] <==> k == |r| - 1
  {
    hide W;
  }

  /** Around the ring that start is in, looking for x. */
  method RingFind(m: Mem, start: int, x: int, ghost r: seq<int>) returns (found: bool)
    requires RingReadable(m, r) && r[0] == start
    ensures found <==> x in r
  {
    hide W, RingRep;
    var p := start;
    ghost var k := 0;
    while true
      invariant 0 <= k < |r| && p == r[k] && x !in r[..k]
      decreases |r| - k
    {
      if p == x {
        return true;
      }
      RingTurn(m, r, k);
      assert r[..k + 1] == r[..k] + [r[k]];
      p := Get(m, p + FD);
      if p == start {
        assert r[..k + 1] == r;
        return false;
      }
      k := k + 1;
    }
  }

  ghost predicate AllOfSize(t: Trie, s: int, e: set<int>, bn: map<int, int>) {
    forall p :: p in Elems(t) && p in bn && bn[p] == s ==> p in e
  }

  /** What is of size s in a tree is at the node of size s or on the side of the tree where s belongs. */
  lemma SizeBelow(t: Trie, lo: int, w: int, s: int, bn: map<int, int>)
    requires t.Node? && w > 1 && TrieOk(t, lo, w, bn) && t.size != s
    ensures AllOfSize(t, s, if s < lo + w / 2 then Elems(t.left) else Elems(t.right), bn)
  {
    hide TrieOk;
    TreeSearch.NodeParts(t, lo, w, bn);
    ElemsInRange(t.left, lo, w / 2, bn);
    ElemsInRange(t.right, lo + w / 2, w / 2, bn);
  }

  lemma SizeHere(t: Trie, lo: int, w: int, bn: map<int, int>)
    requires t.Node? && TrieOk(t, lo, w, bn)
    ensures forall p :: p in Elems(t) && p in bn && bn[p] == t.size ==> p in t.ring
    ensures forall p :: p in t.ring ==> p in Elems(t) && p in bn && bn[p] == t.size
    ensures Distinct(t.ring)
  {
  }

  lemma NodeRepRing(m: Mem, ring: seq<int>, par: int, idx: int)
    requires NodeRep(m, ring, par, idx)
    ensures ring != [] && RingRep(m, ring)
  {
    hide W, RingRep;
  }

  lemma BinnedWord(m: Mem, bn: map<int, int>, p: int, a: int)
    requires Readable(m, bn) && p in bn && p <= a < p + bn[p]
    ensures a in m
  {
    hide W, ChunkSize;
  }

  lemma LargeLink(m: Mem, bn: map<int, int>, e: set<int>, p: int)
    requires LargeOnly(bn, e) && p in e && Readable(m, bn)
    ensures p + FD in m
  {
    hide Readable;
    BinnedWord(m, bn, p, p + FD);
  }

  lemma WalkParts(m: Mem, p: int, par: int, i: int, t: Trie, lo: int, w: int, bn: map<int, int>)
    requires Walkable(m, p, par, i, t, lo, w, bn)
    ensures TreeRep(m, p, par, i, t) && TrieOk(t, lo, w, bn)
  {
    hide W, TrieOk, TreeRep;
  }

  lemma NodeRing(m: Mem, p: int, par: int, i: int, t: Trie, lo: int, w: int, bn: map<int, int>)
    requires t.Node? && Walkable(m, p, par, i, t, lo, w, bn) && Readable(m, bn) && LargeOnly(bn, Elems(t))
    ensures RingReadable(m, t.ring) && t.ring[0] == p
  {
    hide *;
    WalkParts(m, p, par, i, t, lo, w, bn);
    HeadInElems(m, p, par, i, t);
    NodeRepRing(m, t.ring, par, i);
    SizeHere(t, lo, w, bn);
    forall k | 0 <= k < |t.ring| ensures t.ring[k] + FD in m {
      LargeLink(m, bn, Elems(t), t.ring[k]);
    }
    AreReadable(m, t.ring);
  }

  lemma AreReadable(m: Mem, r: seq<int>)
    requires r != [] && RingRep(m, r) && Distinct(r) && forall k :: 0 <= k < |r| ==> r[k] + FD in m
    ensures RingReadable(m, r)
  {
    hide W, RingRep, Distinct;
  }

  lemma Subsize(t: Trie, cur: Trie, e: set<int>, s: int, bn: map<int, int>)
    requires AllOfSize(t, s, Elems(cur), bn) && AllOfSize(cur, s, e, bn)
    ensures AllOfSize(t, s, e, bn)
  {
  }

  /** The descent of bin_find to the node of size s; u is 0 if there is none. */
  method FindNode(m: Mem, root: int, i: int, s: int, ghost t: Trie, ghost bn: map<int, int>)
      returns (u: int, ghost ring: seq<int>)
    requires 0 <= i <= 31 && Walkable(m, root, TB(i), i, t, BinBase(i), BinWidth(i), bn)
    requires Readable(m, bn) && LargeOnly(bn, Elems(t)) && BinBase(i) <= s < BinBase(i) + BinWidth(i)
    ensures u == 0 ==> AllOfSize(t, s, {}, bn)
    ensures u != 0 ==>
      RingReadable(m, ring) && ring[0] == u && RingSet(ring) <= Elems(t) && AllOfSize(t, s, RingSet(ring), bn)
  {
    hide W, BinBase, BinWidth, KeyFor, U64, TreeRep, TrieOk, IsPow2, Readable, LargeOnly, Walkable, Elems, LeftShift,
      Pow2, AllOfSize, RingReadable;
    u, ring := root, [];
    var k := U64(s * Pow2(LeftShift(i)));
    KeyAtRoot(s, i);
    ghost var cur, lo, w, par := t, BinBase(i), BinWidth(i), TB(i);
    WalkPow2(m, u, par, i, cur, lo, w, bn);
    AllOf(t, s, bn);
    if u != 0 { Reached(m, u, par, i, cur, lo, w, bn, t); }
    while u != 0 && ChunkSize(Get(m, u + HEAD)) != s
      invariant Walkable(m, u, par, i, cur, lo, w, bn) && Elems(cur) <= Elems(t) && (u == 0 <==> cur.Nil?)
      invariant u != 0 ==> u + HEAD in m && ChunkSize(W(m, u + HEAD)) == cur.size
      invariant lo <= s < lo + w && KeyFor(k, s, lo, w) && AllOfSize(t, s, Elems(cur), bn)
      decreases cur
    {
      Reached(m, u, par, i, cur, lo, w, bn, t);
      WalkPow2(m, u, par, i, cur, lo, w, bn);
      NarrowExact(s, cur.size, lo, w);
      SizeBelow(cur, lo, w, s, bn);
      KeyStep(k, s, lo, w);
      u := Get(m, u + (if k / TWO63 == 0 then CHILD0 else CHILD1));
      k := U64(2 * k);
      par := cur.ring[0];
      if s < lo + w / 2 {
        Subsize(t, cur, Elems(cur.left), s, bn);
        cur, w := cur.left, w / 2;
      } else {
        Subsize(t, cur, Elems(cur.right), s, bn);
        cur, lo, w := cur.right, lo + w / 2, w / 2;
      }
      WalkPow2(m, u, par, i, cur, lo, w, bn);
      if u != 0 { Reached(m, u, par, i, cur, lo, w, bn, t); }
    }
    if u != 0 {
      Reached(m, u, par, i, cur, lo, w, bn, t);
      NodeRing(m, u, par, i, cur, lo, w, bn);
      WalkPow2(m, u, par, i, cur, lo, w, bn);
      RingOfNode(t, cur, lo, w, s, bn);
      ring := cur.ring;
    } else {
      NoneOf(t, cur, s, bn);
    }
  }

  lemma AllOf(t: Trie, s: int, bn: map<int, int>)
    ensures AllOfSize(t, s, Elems(t), bn)
  {
  }

  lemma NoneOf(t: Trie, cur: Trie, s: int, bn: map<int, int>)
    requires cur.Nil? && AllOfSize(t, s, Elems(cur), bn)
    ensures AllOfSize(t, s, {}, bn)
  {
  }

  lemma RingOfNode(t: Trie, cur: Trie, lo: int, w: int, s: int, bn: map<int, int>)
    requires cur.Node? && cur.size == s && TrieOk(cur, lo, w, bn) && Elems(cur) <= Elems(t)
    requires AllOfSize(t, s, Elems(cur), bn)
    ensures RingSet(cur.ring) <= Elems(t) && AllOfSize(t, s, RingSet(cur.ring), bn)
  {
    SizeHere(cur, lo, w, bn);
  }

  /** What WalkStep says, for a node that has been reached. */
  lemma Reached(m: Mem, u: int, par: int, i: int, cur: Trie, lo: int, w: int, bn: map<int, int>, t: Trie)
    requires Walkable(m, u, par, i, cur, lo, w, bn) && Readable(m, bn) && LargeOnly(bn, Elems(t))
    requires Elems(cur) <= Elems(t) && cur.Node?
    ensures u + HEAD in m && u + CHILD0 in m && u + CHILD1 in m && ChunkSize(W(m, u + HEAD)) == cur.size
    ensures lo <= cur.size < lo + w
    ensures LargeOnly(bn, Elems(cur)) && cur.ring != [] && cur.ring[0] == u
    ensures w > 1 ==> w % 2 == 0 && Walkable(m, W(m, u + CHILD0), u, i, cur.left, lo, w / 2, bn)
    ensures w > 1 ==> Walkable(m, W(m, u + CHILD1), u, i, cur.right, lo + w / 2, w / 2, bn)
    ensures Elems(cur.left) <= Elems(cur) && Elems(cur.right) <= Elems(cur)
  {
    hide W, TrieOk, IsPow2, Readable;
    LargeSub(bn, Elems(t), Elems(cur));
    WalkStep(m, u, par, i, cur, lo, w, bn);
    HeadInElems(m, u, par, i, cur);
  }

  /** A small bin that is not empty. */
  lemma OccupiedBin(m: Mem, b: BinState, i: int)
    requires BinsOk(m, b) && 0 <= i < 32 && b.smallmap[i]
    ensures |b.small| == 32 && b.small[i] != [] && RingRep(m, [SB(i)] + b.small[i]) && Distinct(b.small[i])
    ensures forall p :: p in b.small[i] <==> p in b.bn && b.bn[p] == 8 * i
    ensures forall p :: p in b.small[i] ==> p >= GM_END && b.bn[p] >= MIN_CHUNK_SIZE
  {
    hide W, TreeBins, RingRep, Distinct;
    assert |b.small| == 32 && SmallBin(m, b.smallmap, i, b.small[i], b.bn);
    forall p | p in b.small[i] ensures p >= GM_END && b.bn[p] >= MIN_CHUNK_SIZE {
      assert ChunkOk(p, b.bn[p]);
    }
  }

  lemma HeaderDistinct(i: int, list: seq<int>)
    requires 0 <= i < 32 && Distinct(list) && forall p :: p in list ==> p >= GM_END
    ensures Distinct([SB(i)] + list)
  {
    var r := [SB(i)] + list;
    forall j, k | 0 <= j < k < |r| ensures r[j] != r[k] {
      assert r[k] == list[k - 1] && list[k - 1] in list;
    }
  }

  lemma SmallRing(m: Mem, b: BinState, i: int)
    requires BinsOk(m, b) && Readable(m, b.bn) && 0 <= i < 32 && b.smallmap[i]
    requires (forall a :: GM <= a < GM_END ==> a in m)
    ensures |b.small| == 32 && RingReadable(m, [SB(i)] + b.small[i])
    ensures forall p :: p in b.small[i] <==> p in b.bn && b.bn[p] == 8 * i
    ensures forall p :: p in b.small[i] ==> p >= GM_END
  {
    hide W, BinsOk, Readable, RingRep, Distinct, RingReadable;
    OccupiedBin(m, b, i);
    var list := b.small[i];
    HeaderDistinct(i, list);
    var r := [SB(i)] + list;
    forall k | 0 <= k < |r| ensures r[k] + FD in m {
      if k > 0 {
        assert r[k] == list[k - 1] && list[k - 1] in list;
        BinnedWord(m, b.bn, r[k], r[k] + FD);
      }
    }
    AreReadable(m, r);
  }

  lemma NotSmallBinned(m: Mem, b: BinState, i: int)
    requires BinsOk(m, b) && 0 <= i < 32 && !b.smallmap[i]
    ensures forall p :: p in b.bn ==> b.bn[p] != 8 * i
  {
    hide W, TreeBins, RingRep;
    assert |b.small| == 32 && SmallBin(m, b.smallmap, i, b.small[i], b.bn);
  }

  lemma TreesOf(m: Mem, b: BinState)
    requires BinsOk(m, b) && Readable(m, b.bn) && (forall a :: GM <= a < GM_END ==> a in m)
    ensures TreesReady(m, b)
  {
    hide W, SmallBins, TreeBins, BnOk, Readable;
  }

  lemma TreeOfSize(m: Mem, b: BinState, s: int)
    requires TreesReady(m, b) && MIN_LARGE_SIZE <= s < TWO64
    ensures var i := TreeIndex(s);
      && 0 <= i <= 31 && |b.trees| == 32 && BinBase(i) <= s < BinBase(i) + BinWidth(i)
      && LargeOnly(b.bn, Elems(b.trees[i]))
      && forall p :: p in b.bn && b.bn[p] == s ==> p in Elems(b.trees[i]) && b.treemap[i]
  {
    hide W, TreeIndex, TreesReady, TrieOk, TreeRep, BinBase, BinWidth;
    var i := TreeIndex(s);
    ClassInRange(i, s);
    BinReady(m, b, i, s);
    forall p | p in b.bn && b.bn[p] == s ensures p in Elems(b.trees[i]) && b.treemap[i] {
      InItsTree(m, b, p);
    }
  }

  /** bin_find: x is found exactly if it is binned. */
  method BinFind(m: Mem, smallmap: Bits, treemap: Bits, x: int, ghost b: BinState) returns (found: bool)
    requires BinsOk(m, b) && Readable(m, b.bn) && smallmap == b.smallmap && treemap == b.treemap
    requires (forall a :: GM <= a < GM_END ==> a in m) && x >= GM_END && x + HEAD in m
    requires ChunkSize(W(m, x + HEAD)) % 8 == 0 && 0 <= ChunkSize(W(m, x + HEAD)) < TWO64
    ensures found <==> x in b.bn
  {
    hide W, BinsOk, Readable, TreeIndex, ChunkSize, TreesReady, RingReadable, AllOfSize, LargeOnly, BinBase, BinWidth,
      Elems, Walkable;
    var size := ChunkSize(Get(m, x + HEAD));
    SizeShown(m, b.bn, x);
    if IsSmall(size) {
      var i := SmallIndex(size);
      assert size == 8 * i;
      if smallmap[i] {
        SmallRing(m, b, i);
        ghost var r := [SB(i)] + b.small[i];
        found := RingFind(m, SB(i), x, r);
      } else {
        NotSmallBinned(m, b, i);
        found := false;
      }
    } else {
      TreesOf(m, b);
      TreeOfSize(m, b, size);
      var i := TreeIndex(size);
      if treemap[i] {
        found := TreeFind(m, i, size, x, b);
      } else {
        found := false;
      }
    }
  }

  lemma SizeShown(m: Mem, bn: map<int, int>, x: int)
    requires Readable(m, bn)
    ensures x in bn ==> bn[x] == ChunkSize(W(m, x + HEAD))
  {
    hide W, ChunkSize;
  }

  method TreeFind(m: Mem, i: int, size: int, x: int, ghost b: BinState) returns (found: bool)
    requires TreesReady(m, b) && MIN_LARGE_SIZE <= size < TWO64 && i == TreeIndex(size)
    requires (x in b.bn ==> b.bn[x] == size)
    ensures found <==> x in b.bn
  {
    hide W, BinsOk, TreeIndex, ChunkSize, TreesReady, RingReadable, LargeOnly, BinBase, BinWidth, Elems, Walkable;
    TreeOfSize(m, b, size);
    BinReady(m, b, i, size);
    var root := Get(m, TB(i));
    var u, ring := FindNode(m, root, i, size, b.trees[i], b.bn);
    if u == 0 {
      found := false;
    } else {
      found := RingFind(m, u, x, ring);
      assert x in ring <==> x in RingSet(ring);
      LargeHas(b.bn, Elems(b.trees[i]), x);
    }
  }

  lemma LargeHas(bn: map<int, int>, e: set<int>, x: int)
    requires LargeOnly(bn, e)
    ensures x in e ==> x in bn
  {
  }

  // The links of a binned chunk

  /** Its neighbours in the ring lead back to it. */
  ghost predicate LinksBack(m: Mem, b: BinState, p: int) {
    && W(m, W(m, p + FD) + BK) == p && W(m, W(m, p + BK) + FD) == p
    && InRing(b, W(m, p + FD)) && InRing(b, W(m, p + BK))
  }

  ghost predicate InRing(b: BinState, q: int) {
    q in b.bn || exists i :: 0 <= i < 32 && q == SB(i)
  }

  lemma RingLinks(m: Mem, b: BinState, r: seq<int>, k: int)
    requires 0 <= k < |r| && RingRep(m, r) && forall j :: 0 <= j < |r| ==> InRing(b, r[j])
    ensures LinksBack(m, b, r[k])
  {
    hide W, InRing;
    var n, p := if k + 1 < |r| then k + 1 else 0, if k > 0 then k - 1 else |r| - 1;
    assert r[n] == NextOf(r, k) && PrevOf(r, n) == r[k];
    assert r[p] == PrevOf(r, k) && NextOf(r, p) == r[k];
  }

  lemma {:induction false} TreeLinks(m: Mem, p: int, par: int, i: int, t: Trie, b: BinState, x: int)
    requires TreeRep(m, p, par, i, t) && x in Elems(t) && forall q :: q in Elems(t) ==> q in b.bn
    ensures LinksBack(m, b, x)
    decreases t
  {
    hide W, RingRep, LinksBack;
    if x in t.ring {
      var k :| 0 <= k < |t.ring| && t.ring[k] == x;
      forall j | 0 <= j < |t.ring| ensures InRing(b, t.ring[j]) {
        assert t.ring[j] in t.ring;
      }
      RingLinks(m, b, t.ring, k);
    } else if x in Elems(t.left) {
      TreeLinks(m, W(m, p + CHILD0), p, i, t.left, b, x);
    } else {
      TreeLinks(m, W(m, p + CHILD1), p, i, t.right, b, x);
    }
  }

  lemma BinnedLinks(m: Mem, b: BinState, x: int)
    requires BinsOk(m, b) && x in b.bn
    ensures LinksBack(m, b, x)
  {
    hide W, LinksBack, TreeIndex, TrieOk, Elems, TreeRep, RingRep;
    var s := b.bn[x];
    assert ChunkOk(x, s);
    if IsSmall(s) {
      var i := s / 8;
      assert |b.small| == 32 && SmallBin(m, b.smallmap, i, b.small[i], b.bn);
      var list := b.small[i];
      var k :| 0 <= k < |list| && list[k] == x;
      forall j | 0 <= j < |list| + 1 ensures InRing(b, ([SB(i)] + list)[j]) {
        assert j > 0 ==> ([SB(i)] + list)[j] == list[j - 1] && list[j - 1] in list;
      }
      RingLinks(m, b, [SB(i)] + list, k + 1);
    } else {
      TreeIndexRange(s);
      var i := TreeIndex(s);
      assert TreeBin(m, b.treemap, i, b.trees[i], b.bn);
      TreeLinks(m, W(m, TB(i)), TB(i), i, b.trees[i], b, x);
    }
  }
}
