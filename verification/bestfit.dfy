/** The searches of tmalloc_large and tmalloc_small over all tree bins. */
module BestFit {
  import opened BinIndex
  import opened BitMaps
  import opened Bins
  import opened Tries
  import opened TrieMem
  import opened TreeSearch
  import opened Words

  ghost predicate TreesReady(m: Mem, b: BinState) {
    && BnOk(b.bn) && TreeBins(m, b) && Readable(m, b.bn)
    && forall i :: 0 <= i < 32 ==> TB(i) in m
  }

  /** v is a smallest large chunk that holds nb bytes; v == 0 says there is none. */
  ghost predicate IsBestFit(v: int, rsize: int, nb: int, bn: map<int, int>) {
    && (v == 0 ==> rsize == TWO64 - nb && forall p :: p in bn && bn[p] >= MIN_LARGE_SIZE ==> bn[p] < nb)
    && (v != 0 ==>
      && v in bn && bn[v] >= MIN_LARGE_SIZE && bn[v] >= nb && rsize == bn[v] - nb
      && forall p :: p in bn && bn[p] >= MIN_LARGE_SIZE && bn[p] >= nb ==> bn[v] <= bn[p])
  }

  lemma BinReady(m: Mem, b: BinState, i: int, nb: int)
    requires TreesReady(m, b) && 0 <= i < 32 && 0 < nb < TWO64
    ensures |b.trees| == 32 && TB(i) in m && TreeBin(m, b.treemap, i, b.trees[i], b.bn)
    ensures Walkable(m, W(m, TB(i)), TB(i), i, b.trees[i], BinBase(i), BinWidth(i), b.bn)
    ensures SearchContext(m, nb, Elems(b.trees[i]), b.bn)
    ensures W(m, TB(i)) == 0 <==> b.trees[i].Nil?
    ensures b.treemap[i] <==> b.trees[i].Node?
    ensures forall p :: p in b.bn ==> b.bn[p] < TWO64
  {
    hide W, TreeIndex, NodeRep, BinWidth, BinBase;
    BinRange(i);
    ChildNull(m, W(m, TB(i)), TB(i), i, b.trees[i]);
    assert forall p :: p in b.bn ==> ChunkOk(p, b.bn[p]);
  }

  /** A size in the class of bin i lies in the bin's range. */
  lemma ClassInRange(i: int, nb: int)
    requires MIN_LARGE_SIZE <= nb < TWO64 && i == TreeIndex(nb)
    ensures 0 <= i <= 31 && BinBase(i) <= nb < BinBase(i) + BinWidth(i)
  {
    hide TreeIndex, BinBase, BinWidth;
    TreeIndexRange(nb);
    BinRange(i);
  }

  /** Every large binned chunk is in the tree of its class, and that tree's bit is set. */
  lemma InItsTree(m: Mem, b: BinState, p: int)
    requires TreesReady(m, b) && p in b.bn && b.bn[p] >= MIN_LARGE_SIZE
    ensures var j := TreeIndex(b.bn[p]); 0 <= j <= 31 && |b.trees| == 32 && p in Elems(b.trees[j]) && b.treemap[j]
    ensures b.bn[p] < TWO64
  {
    hide W, TreeIndex, TrieOk, TreeRep;
    assert ChunkOk(p, b.bn[p]);
    TreeIndexRange(b.bn[p]);
    assert TreeBin(m, b.treemap, TreeIndex(b.bn[p]), b.trees[TreeIndex(b.bn[p])], b.bn);
  }

  lemma OfClass(m: Mem, b: BinState, i: int, v: int)
    requires TreesReady(m, b) && 0 <= i < 32 && |b.trees| == 32 && v in Elems(b.trees[i])
    ensures v in b.bn && InTreeClass(b.bn[v], i) && b.bn[v] < TWO64
  {
    hide W, TreeIndex, TrieOk, TreeRep;
    assert TreeBin(m, b.treemap, i, b.trees[i], b.bn);
    assert ChunkOk(v, b.bn[v]);
  }

  /** A fit found in the bin of nb, or in the first occupied bin after it, is best over all bins. */
  lemma FoundIsBest(m: Mem, b: BinState, idx: int, i: int, nb: int, v: int, rsize: int)
    requires TreesReady(m, b) && MIN_LARGE_SIZE <= nb < TWO64 && idx == TreeIndex(nb) && 0 <= idx <= i < 32
    requires |b.trees| == 32
    requires v != 0 && Candidate(v, rsize, nb, Elems(b.trees[i]), b.bn)
    requires Covered(v, rsize, nb, Elems(b.trees[i]), Nil, b.bn)
    requires i == idx || NoFit(nb, Elems(b.trees[idx]), b.bn)
    requires forall j :: idx < j < i ==> !b.treemap[j]
    ensures IsBestFit(v, rsize, nb, b.bn)
  {
    hide W, TreeIndex, TrieOk, TreeRep, TreesReady;
    OfClass(m, b, i, v);
    forall p | p in b.bn && b.bn[p] >= MIN_LARGE_SIZE && b.bn[p] >= nb
      ensures b.bn[v] <= b.bn[p]
    {
      InItsTree(m, b, p);
      var j := TreeIndex(b.bn[p]);
      if j < idx {
        IndexOrdersSizes(b.bn[p], nb);
      } else if j > i {
        IndexOrdersSizes(b.bn[v], b.bn[p]);
      }
    }
  }

  ghost predicate NoFit(nb: int, s: set<int>, bn: map<int, int>) {
    forall p :: p in s && p in bn ==> bn[p] < nb
  }

  lemma NothingFits(m: Mem, b: BinState, idx: int, nb: int)
    requires TreesReady(m, b) && MIN_LARGE_SIZE <= nb < TWO64 && idx == TreeIndex(nb) && 0 <= idx < 32
    requires |b.trees| == 32
    requires NoFit(nb, Elems(b.trees[idx]), b.bn)
    requires forall j :: idx < j < 32 ==> !b.treemap[j]
    ensures IsBestFit(0, TWO64 - nb, nb, b.bn)
  {
    hide W, TreeIndex, TrieOk, TreeRep, TreesReady;
    forall p | p in b.bn && b.bn[p] >= MIN_LARGE_SIZE
      ensures b.bn[p] < nb
    {
      InItsTree(m, b, p);
      var j := TreeIndex(b.bn[p]);
      if j < idx {
        IndexOrdersSizes(b.bn[p], nb);
      }
    }
  }

  lemma NoneFound(rsize: int, nb: int, s: set<int>, r: Trie, bn: map<int, int>)
    requires Candidate(0, rsize, nb, s, bn) && Covered(0, rsize, nb, s, r, bn) && r.Nil?
    ensures NoFit(nb, s, bn) && rsize == TWO64 - nb
  {
  }

  /** The bits of treemap after bin idx. */
  lemma LaterBits(treemap: Bits, idx: int)
    requires 0 <= idx < 32
    ensures var x := And(LeftBits(IdxToBit(idx)), treemap);
      && (forall j :: 0 <= j < 32 ==> (x[j] <==> j > idx && treemap[j]))
      && (NonZero(x) <==> exists j :: idx < j < 32 && treemap[j])
  {
    LeftBitsOfIndex(idx);
    var x := And(LeftBits(IdxToBit(idx)), treemap);
    if exists j :: idx < j < 32 && treemap[j] {
      var j :| idx < j < 32 && treemap[j];
      assert x[j];
    }
  }

  ghost predicate SomeFit(nb: int, s: set<int>, bn: map<int, int>) {
    exists p :: p in s && p in bn && bn[p] >= nb
  }

  lemma FitIsFound(v: int, rsize: int, nb: int, s: set<int>, bn: map<int, int>)
    requires SomeFit(nb, s, bn) && Covered(v, rsize, nb, s, Nil, bn)
    ensures v != 0
  {
  }

  /** What phase one leaves: if it met a fit or an untaken right subtree, its bin has a fit. */
  lemma BinHasFit(m: Mem, v: int, rsize: int, nb: int, s: set<int>, t: int, par: int, i: int, r: Trie, lo: int, w: int,
                  bn: map<int, int>)
    requires Candidate(v, rsize, nb, s, bn) && (rsize == 0 || AllFit(nb, Elems(r), bn)) && Elems(r) <= s
    requires 0 < nb < TWO64
    requires Walkable(m, t, par, i, r, lo, w, bn)
    requires v != 0 || (r.Node? && t != 0)
    ensures SomeFit(nb, s, bn)
  {
    hide TrieOk, TreeRep, Elems;
    if v == 0 {
      WalkHead(m, t, par, i, r, lo, w, bn);
    }
  }

  lemma EmptyTree(m: Mem, nb: int, i: int, tree: Trie, bn: map<int, int>)
    requires tree.Nil? && 0 < nb < TWO64
    ensures Candidate(0, U64(-nb), nb, Elems(tree), bn) && Covered(0, U64(-nb), nb, Elems(tree), Nil, bn)
    ensures Walkable(m, 0, 0, i, Nil, 0, 1, bn) && AllFit(nb, Elems(Nil), bn)
  {
  }

  /** In a bin after that of nb, every chunk fits. */
  lemma LaterBinFits(m: Mem, b: BinState, i: int, nb: int, rsize: int)
    requires TreesReady(m, b) && MIN_LARGE_SIZE <= nb < TWO64 && TreeIndex(nb) < i && 0 <= i < 32 && |b.trees| == 32
    requires b.treemap[i]
    requires rsize == TWO64 - nb
    ensures var t := b.trees[i];
      && AllFit(nb, Elems(t), b.bn) && Candidate(0, rsize, nb, Elems(t), b.bn)
      && Covered(0, rsize, nb, Elems(t), t, b.bn)
      && SomeFit(nb, Elems(t), b.bn)
  {
    hide W, TreeIndex, TreeRep, TreesReady, TreeBin, Elems, TrieOk, BinBase, BinWidth, MinOf;
    BinReady(m, b, i, nb);
    var t := b.trees[i];
    forall p | p in Elems(t) ensures p in b.bn && b.bn[p] >= nb {
      OfClass(m, b, i, p);
      IndexOrdersSizes(nb, b.bn[p]);
    }
    WalkPow2(m, W(m, TB(i)), TB(i), i, t, BinBase(i), BinWidth(i), b.bn);
    WalkHead(m, W(m, TB(i)), TB(i), i, t, BinBase(i), BinWidth(i), b.bn);
    MinOfIsLeast(t, BinBase(i), BinWidth(i), b.bn);
  }

  /** The search of tmalloc_large: over all tree bins, a smallest chunk that holds nb bytes. */
  method BestFitLarge(m: Mem, treemap: Bits, nb: int, ghost b: BinState) returns (v: int, rsize: int)
    requires TreesReady(m, b) && treemap == b.treemap && MIN_LARGE_SIZE <= nb < TWO64
    ensures IsBestFit(v, rsize, nb, b.bn)
  {
    hide W, U64, TreeIndex, TreesReady, TreeBin, TreeRep, TrieOk, BinBase, BinWidth, Walkable, SearchContext, Candidate,
      Covered, AllFit, NoFit, SomeFit, IsBestFit, And, LeftBits, IdxToBit, LeastBit, Elems, NonZero;
    var idx := TreeIndex(nb);
    v, rsize := 0, U64(-nb);
    ClassInRange(idx, nb);
    BinReady(m, b, idx, nb);
    ghost var bin, tree, r, par, lo, w := idx, b.trees[idx], Nil, 0, 0, 1;
    var t := Get(m, TB(idx));
    if t != 0 {
      v, rsize, t, r, par, lo, w := SearchBin(m, t, idx, nb, tree, b.bn);
    } else {
      EmptyTree(m, nb, idx, tree, b.bn);
    }
    ghost var none := false;
    if t == 0 && v == 0 {
      NoneFound(rsize, nb, Elems(tree), r, b.bn);
      var leftbits := And(LeftBits(IdxToBit(idx)), treemap);
      LaterBits(treemap, idx);
      if NonZero(leftbits) {
        LeastBitIsFirst(leftbits);
        var i := BitToIdx(LeastBit(leftbits));
        BinReady(m, b, i, nb);
        t := Get(m, TB(i));
        LaterBinFits(m, b, i, nb, rsize);
        bin, tree, r, par, lo, w := i, b.trees[i], b.trees[i], TB(i), BinBase(i), BinWidth(i);
      } else {
        none := true;
      }
    } else {
      BinHasFit(m, v, rsize, nb, Elems(tree), t, par, idx, r, lo, w, b.bn);
    }
    v, rsize := FindSmallest(m, t, v, rsize, nb, par, bin, r, lo, w, Elems(tree), b.bn);
    if none {
      NothingFits(m, b, idx, nb);
      NoneStays(v, rsize, nb, Elems(tree), b.bn);
    } else {
      FitIsFound(v, rsize, nb, Elems(tree), b.bn);
      FoundIsBest(m, b, idx, bin, nb, v, rsize);
    }
  }

  lemma NoneStays(v: int, rsize: int, nb: int, s: set<int>, bn: map<int, int>)
    requires Candidate(v, rsize, nb, s, bn) && NoFit(nb, s, bn)
    ensures v == 0 && rsize == TWO64 - nb
  {
  }

  /** v is a smallest large chunk of all. */
  ghost predicate IsLeastLarge(v: int, rsize: int, nb: int, bn: map<int, int>) {
    && v in bn && bn[v] >= MIN_LARGE_SIZE && rsize == bn[v] - nb
    && forall p :: p in bn && bn[p] >= MIN_LARGE_SIZE ==> bn[v] <= bn[p]
  }

  /** The search of tmalloc_small: the smallest chunk of the first occupied tree bin. */
  method LeastLarge(m: Mem, treemap: Bits, nb: int, ghost b: BinState) returns (v: int, rsize: int)
    requires TreesReady(m, b) && treemap == b.treemap && 0 < nb < MIN_LARGE_SIZE && NonZero(treemap)
    ensures IsLeastLarge(v, rsize, nb, b.bn)
  {
    hide W, U64, TreeIndex, TreesReady, TreeBin, TreeRep, TrieOk, BinBase, BinWidth, Walkable, SearchContext, Candidate,
      Covered, AllFit, LeastBit, Elems, NonZero, IsLeastLarge, Leftward;
    LeastBitIsFirst(treemap);
    var i := BitToIdx(LeastBit(treemap));
    BinReady(m, b, i, nb);
    var t := Get(m, TB(i));
    ghost var s := Elems(b.trees[i]);
    v := t;
    FirstLook(m, b, i, nb);
    rsize := ChunkSize(Get(m, t + HEAD)) - nb;
    ghost var g := Walk(TB(i), b.trees[i], BinBase(i), BinWidth(i), 0, Nil, 0, 1);
    LeftwardStep(m, i, nb, s, b.bn, v, rsize, t, g);
    ghost var g' := NextLeft(t, g);
    var t' := if Get(m, t + CHILD0) != 0 then Get(m, t + CHILD0) else Get(m, t + CHILD1);
    LookedAgain(m, t, nb, rsize);
    t, g := t', g';
    while t != 0
      invariant Leftward(m, i, nb, s, b.bn, v, rsize, t, g) && v != 0
      decreases g.cur
    {
      LeftwardStep(m, i, nb, s, b.bn, v, rsize, t, g);
      var trem := U64(ChunkSize(Get(m, t + HEAD)) - nb);
      if trem < rsize {
        rsize := trem;
        v := t;
      }
      g := NextLeft(t, g);
      t := if Get(m, t + CHILD0) != 0 then Get(m, t + CHILD0) else Get(m, t + CHILD1);
    }
    LeftwardDone(m, i, nb, s, b.bn, v, rsize, g);
    FirstBinIsLeast(m, b, i, nb, v, rsize);
  }

  ghost function NextLeft(t: int, g: Walk): Walk
    requires g.cur.Node?
  {
    Walk(t, LeftmostChild(g.cur), if g.cur.left.Node? || g.w <= 1 then g.lo else g.lo + g.w / 2,
         if g.w > 1 then g.w / 2 else 1, 0, Nil, 0, 1)
  }

  /** The root of the first occupied bin, which every small request fits. */
  lemma FirstLook(m: Mem, b: BinState, i: int, nb: int)
    requires TreesReady(m, b) && 0 <= i < 32 && |b.trees| == 32 && b.treemap[i] && 0 < nb < MIN_LARGE_SIZE
    ensures var t := W(m, TB(i)); var s := Elems(b.trees[i]);
      && t != 0 && t + HEAD in m && 0 <= ChunkSize(W(m, t + HEAD)) - nb < TWO64
      && Leftward(m, i, nb, s, b.bn, t, ChunkSize(W(m, t + HEAD)) - nb, t,
                  Walk(TB(i), b.trees[i], BinBase(i), BinWidth(i), 0, Nil, 0, 1))
  {
    hide W, TreeIndex, TreeBin, Elems, TrieOk, BinBase, BinWidth, MinOf, TreeRep, TreesReady;
    BinReady(m, b, i, nb);
    var t := b.trees[i];
    var p := W(m, TB(i));
    var lo, w := BinBase(i), BinWidth(i);
    forall q | q in Elems(t) ensures q in b.bn && b.bn[q] >= MIN_LARGE_SIZE {
      OfClass(m, b, i, q);
    }
    WalkStep(m, p, TB(i), i, t, lo, w, b.bn);
    WalkHead(m, p, TB(i), i, t, lo, w, b.bn);
    WalkPow2(m, p, TB(i), i, t, lo, w, b.bn);
    MinOfIsLeast(t, lo, w, b.bn);
  }

  lemma LookedAgain(m: Mem, t: int, nb: int, rsize: int)
    requires rsize == ChunkSize(W(m, t + HEAD)) - nb && 0 <= rsize < TWO64
    ensures U64(ChunkSize(W(m, t + HEAD)) - nb) == rsize
  {
  }

  lemma FirstBinIsLeast(m: Mem, b: BinState, i: int, nb: int, v: int, rsize: int)
    requires TreesReady(m, b) && 0 < nb < MIN_LARGE_SIZE && 0 <= i < 32 && |b.trees| == 32
    requires v != 0 && Candidate(v, rsize, nb, Elems(b.trees[i]), b.bn)
    requires Covered(v, rsize, nb, Elems(b.trees[i]), Nil, b.bn)
    requires forall j :: 0 <= j < i ==> !b.treemap[j]
    ensures IsLeastLarge(v, rsize, nb, b.bn)
  {
    hide W, TreeIndex, TrieOk, TreeRep, TreesReady;
    OfClass(m, b, i, v);
    forall p | p in b.bn && b.bn[p] >= MIN_LARGE_SIZE
      ensures b.bn[v] <= b.bn[p]
    {
      InItsTree(m, b, p);
      if TreeIndex(b.bn[p]) > i {
        IndexOrdersSizes(b.bn[v], b.bn[p]);
      }
    }
  }
}
