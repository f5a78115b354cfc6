/** unlink_large_chunk as a change of the whole heap. */
module HeapUnlink {
  import opened BinIndex
  import opened BitMaps
  import opened Bins
  import opened HeapState
  import opened HeapSteps
  import opened Rings
  import opened Tiles
  import opened Tries
  import opened TrieMem
  import opened TreeOps
  import opened TreeRemove
  import opened TreeSearch
  import opened Words

  /** Large chunk x is in its tree. */
  ghost predicate LargeBinned(m: Mem, s: State, x: int) {
    && HeapOk(m, s) && x in s.cs && s.cs[x].kind.Binned? && !IsSmall(s.cs[x].size)
    && 0 <= TreeIndex(s.cs[x].size) < 32 && |s.b.trees| == 32 && x in Elems(s.b.trees[TreeIndex(s.cs[x].size)])
  }

  function IndexFor(s: State, x: int): int
    requires x in s.cs
  {
    TreeIndex(s.cs[x].size)
  }

  /** The heap with large chunk x out of its tree. */
  ghost function UnbinnedLarge(s: State, x: int): State
    requires x in s.cs
  {
    var i := TreeIndex(s.cs[x].size);
    if !(0 <= i < 32 && |s.b.trees| == 32 && x in Elems(s.b.trees[i])) then s else
    s.(b := RemovedLarge(s.b, i, x), cs := Rekind(s.cs, x, Loose))
  }

  lemma LargeOut(m: Mem, s: State, x: int)
    requires HeapOk(m, s) && x in s.cs && s.cs[x].kind.Binned? && !IsSmall(s.cs[x].size)
    ensures LargeBinned(m, s, x)
    ensures var i := IndexFor(s, x); TreeBinAt(m, s.b, i) && BnOk(s.b.bn) && x in s.b.bn && TB(i) in m
    ensures forall p, a :: p in s.b.bn && p <= a < p + s.b.bn[p] ==> a in m
    ensures forall p :: p in Elems(s.b.trees[IndexFor(s, x)]) ==> p in s.b.bn && s.b.bn[p] >= MIN_LARGE_SIZE
  {
    hide W, Linked, Firsts, Coalesced, DvOk, TopOk, RecordPlace, SegList, FencesOk, TagsOk, SmallBins, TreeIndex,
      BinBase, BinWidth, TreeRep, TrieOk;
    var i := TreeIndex(s.cs[x].size);
    assert x in s.b.bn && s.b.bn[x] == s.cs[x].size;
    assert ChunkOk(x, s.b.bn[x]);
    TreeIndexRange(s.cs[x].size);
    assert TreeBin(m, s.b.treemap, i, s.b.trees[i], s.b.bn);
    BinnedReadable(m, s);
  }

  /** What the link words of x show: its bin, whether it is chained, whether it is alone in its ring. */
  lemma LargeWords(m: Mem, s: State, x: int)
    requires LargeBinned(m, s, x)
    ensures var i := IndexFor(s, x); var n := Here(s.b, i, x);
      && W(m, x + INDEX) == i
      && (W(m, x + PARENT) == 0 <==> x != HeadOf(n))
      && (x == HeadOf(n) ==> W(m, x + PARENT) == Above(s.b, i, x) && TreeRep(m, x, Above(s.b, i, x), i, n))
      && (W(m, x + BK) == x <==> |n.ring| == 1)
      && (|n.ring| == 1 ==> n.ring == [x] && x == HeadOf(n))
      && x in n.ring && n.ring != []
      && W(m, x + FD) == NextOf(n.ring, IndexOf(n.ring, x)) && W(m, x + BK) == PrevOf(n.ring, IndexOf(n.ring, x))
      && W(m, x + FD) in n.ring && W(m, x + BK) in n.ring
  {
    hide W, HeapOk, FreeWordsOnly, TreeIndex, BinBase, BinWidth, TrieOk, TreeBin, RingRep, BnOk, Apart;
    var i := IndexFor(s, x);
    var n := Here(s.b, i, x);
    LargeOut(m, s, x);
    AtNode(m, s.b, i, x);
    NodeOfTree(m, HeadOf(n), Above(s.b, i, x), i, n);
    var k := IndexOf(n.ring, x);
    LinksAt(m, Above(s.b, i, x), i, n.ring, k);
    SlotPlaceOf(m, s.b, i, x);
    assert NextOf(n.ring, k) in n.ring && PrevOf(n.ring, k) in n.ring;
  }

  /** The words the operation loads and stores are mapped. */
  lemma LargeMapped(m: Mem, s: State, x: int, p: int)
    requires LargeBinned(m, s, x) && p in Elems(s.b.trees[IndexFor(s, x)])
    ensures p in s.b.bn && forall a :: p <= a < p + TCHUNK_SIZE ==> a in m
  {
    hide W, HeapOk, FreeWordsOnly, TreeIndex, TreeBinAt, BnOk;
    LargeOut(m, s, x);
  }

  /** The rest of the heap after x has left tree i. */
  lemma TreeRemoved(m0: Mem, m: Mem, s: State, x: int)
    requires LargeBinned(m0, s, x) && m.Keys == m0.Keys
    requires var i := IndexFor(s, x);
      && TreeBinAt(m, RemovedLarge(s.b, i, x), i)
      && KeptOutside(m0, m, s.b.bn, Elems(s.b.trees[i]), TB(i), TB(i) + 8)
    ensures HeapOk(m, UnbinnedLarge(s, x)) && FreeWordsOnly(m0, m, s.cs)
  {
    hide W, HeapOk, FreeWordsOnly, TreeIndex, BinBase, BinWidth, BnOk, KeptOutside, Rekind, TreeBin, SmallBins,
      TreeBins, Elems, Remove, InTreeClass;
    var i := IndexFor(s, x);
    var e := Elems(s.b.trees[i]);
    LargeOut(m0, s, x);
    assert BinsOk(m0, s.b) by { BinsOf(m0, s); }
    TreeMembers(m0, s.b, i);
    BinsParts(m0, s.b);
    BnShrinks(s.b.bn, x);
    assert forall p :: p in e ==> p in s.b.bn;
    TreeOpKeeps(m0, m, s.b, RemovedLarge(s.b, i, x), i, s.b.bn, e);
    KeptWidens(m0, m, s.b.bn, e, TB(i), TB(i) + 8);
    UnbinStep(m0, m, s, RemovedLarge(s.b, i, x), x);
  }

  lemma BnShrinks(bn: map<int, int>, x: int)
    requires BnOk(bn)
    ensures BnOk(bn - {x})
  {
  }

  lemma BinsOf(m: Mem, s: State)
    requires HeapOk(m, s)
    ensures BinsOk(m, s.b)
  {
  }

  lemma BinsParts(m: Mem, b: BinState)
    requires BinsOk(m, b)
    ensures BnOk(b.bn) && SmallBins(m, b) && TreeBins(m, b) && |b.trees| == 32 && |b.small| == 32
  {
  }

  lemma TreeMembers(m: Mem, b: BinState, i: int)
    requires TreeBinAt(m, b, i)
    ensures forall p :: p in Elems(b.trees[i]) ==> p in b.bn && InTreeClass(b.bn[p], i)
  {
    hide W, TreeRep, TrieOk, TreeIndex;
  }

  lemma MembersLarge(m: Mem, b: BinState, i: int)
    requires TreeBinAt(m, b, i)
    ensures LargeIn(b.bn, Elems(b.trees[i]))
  {
    hide W, TreeRep, TrieOk, TreeIndex;
  }

  /** Case 1: x is chained. */
  lemma ChainedDone(m0: Mem, m: Mem, s: State, x: int)
    requires LargeBinned(m0, s, x) && W(m0, x + PARENT) == 0 && m.Keys == m0.Keys
    requires OutWrites(m0, m, W(m0, x + FD), W(m0, x + BK))
    ensures HeapOk(m, UnbinnedLarge(s, x)) && FreeWordsOnly(m0, m, s.cs)
  {
    hide W, HeapOk, FreeWordsOnly, TreeIndex, BnOk, KeptOutside, TreeBin, Elems, OutWrites, RemovedLarge, NextOf,
      PrevOf, TreeRep;
    var i := IndexFor(s, x);
    LargeOut(m0, s, x);
    LargeWords(m0, s, x);
    AtNode(m0, s.b, i, x);
    RemoveChained(m0, m, s.b, i, x);
    MembersLarge(m0, s.b, i);
    RingInTree(s, x);
    OutKept(m0, m, W(m0, x + FD), W(m0, x + BK), s.b.bn, Elems(s.b.trees[i]), TB(i), TB(i) + 8);
    TreeRemoved(m0, m, s, x);
  }

  lemma RingInTree(s: State, x: int)
    requires x in s.cs && 0 <= IndexFor(s, x) < |s.b.trees| && x in Elems(s.b.trees[IndexFor(s, x)])
    ensures forall q :: q in Here(s.b, IndexFor(s, x), x).ring ==>
      q in Elems(s.b.trees[IndexFor(s, x)]) && q in Elems(Here(s.b, IndexFor(s, x), x))
  {
    hide TreeIndex;
    SubAtElems(s.b.trees[IndexFor(s, x)], x);
  }

  /** A child of x is a chunk below x. */
  lemma ChildrenBelow(m: Mem, s: State, x: int)
    requires LargeBinned(m, s, x) && x == HeadOf(Here(s.b, IndexFor(s, x), x))
    ensures var n := Here(s.b, IndexFor(s, x), x); var c0, c1 := W(m, x + CHILD0), W(m, x + CHILD1);
      (c0 != 0 ==> c0 in Elems(n)) && (c1 != 0 ==> c1 in Elems(n))
  {
    hide W, HeapOk, FreeWordsOnly, TreeIndex, BinBase, BinWidth, TrieOk, TreeBin, NodeRep, BnOk, Apart;
    LargeWords(m, s, x);
    var n := Here(s.b, IndexFor(s, x), x);
    ChildHeads(m, x, IndexFor(s, x), n.left, n.right);
  }

  ghost predicate AsHead(m: Mem, s: State, x: int) {
    LargeBinned(m, s, x) && W(m, x + PARENT) != 0
  }

  /** Case 2: x heads a ring of several. */
  lemma HeadDone(m0: Mem, m1: Mem, m: Mem, s: State, x: int)
    requires AsHead(m0, s, x) && W(m0, x + BK) != x && m.Keys == m0.Keys
    requires OutWrites(m0, m1, W(m0, x + FD), W(m0, x + BK))
    requires TailWrites(m1, m, x, W(m0, x + BK), Above(s.b, IndexFor(s, x), x), SlotHere(s.b, IndexFor(s, x), x))
    ensures HeapOk(m, UnbinnedLarge(s, x)) && FreeWordsOnly(m0, m, s.cs)
  {
    hide W, HeapOk, FreeWordsOnly, TreeIndex, BnOk, KeptOutside, TreeBin, Elems, OutWrites, TailWrites, RemovedLarge,
      NextOf, PrevOf, TreeRep, Apart, FreeRing;
    var i := IndexFor(s, x);
    var e := Elems(s.b.trees[i]);
    var n := Here(s.b, i, x);
    LargeOut(m0, s, x);
    LargeWords(m0, s, x);
    AtNode(m0, s.b, i, x);
    SlotPlaceOf(m0, s.b, i, x);
    RemoveHead(m0, m1, m, s.b, i, x);
    MembersLarge(m0, s.b, i);
    RingInTree(s, x);
    OutKept(m0, m1, W(m0, x + FD), W(m0, x + BK), s.b.bn, e, TB(i), TB(i) + 8);
    UnheadedChildren(m0, m1, s, x);
    TailKept(m1, m, x, W(m0, x + BK), Above(s.b, i, x), SlotHere(s.b, i, x), Above(s.b, i, x), s.b.bn, e,
             TB(i), TB(i) + 8);
    KeptTrans(m0, m1, m, s.b.bn, e, TB(i), TB(i) + 8);
    TreeRemoved(m0, m, s, x);
  }

  /** After the ring has been bridged: where x's children are, and what the parent's words show. */
  lemma UnheadedChildren(m0: Mem, m1: Mem, s: State, x: int)
    requires AsHead(m0, s, x) && W(m0, x + BK) != x && OutWrites(m0, m1, W(m0, x + FD), W(m0, x + BK))
    ensures var i := IndexFor(s, x); var e := Elems(s.b.trees[i]); var n := Here(s.b, i, x);
      var c0, c1 := W(m1, x + CHILD0), W(m1, x + CHILD1);
      && (c0 != 0 ==> c0 in Elems(n) && c0 in e) && (c1 != 0 ==> c1 in Elems(n) && c1 in e)
      && SameOn(m0, m1, e - Elems(n)) && W(m1, TB(i)) == W(m0, TB(i))
      && W(m1, W(m0, x + BK) + CHILD0) == 0 && W(m1, W(m0, x + BK) + CHILD1) == 0
  {
    hide W, HeapOk, FreeWordsOnly, TreeIndex, BnOk, TreeBin, OutWrites, NextOf, PrevOf, Apart, NodeRep;
    var i := IndexFor(s, x);
    var n := Here(s.b, i, x);
    LargeOut(m0, s, x);
    LargeWords(m0, s, x);
    AtNode(m0, s.b, i, x);
    UnheadedAt(m0, m1, s.b, i, x);
    ChildHeads(m1, x, i, n.left, n.right);
  }

  /** Case 3: x is a leaf alone in its ring. */
  lemma LeafDone(m0: Mem, m: Mem, s: State, x: int)
    requires AsHead(m0, s, x) && W(m0, x + BK) == x && m.Keys == m0.Keys
    requires DownChild(Here(s.b, IndexFor(s, x), x)).Nil?
    requires TailWrites(m0, m, x, 0, Above(s.b, IndexFor(s, x), x), SlotHere(s.b, IndexFor(s, x), x))
    ensures HeapOk(m, UnbinnedLarge(s, x)) && FreeWordsOnly(m0, m, s.cs)
  {
    hide W, HeapOk, FreeWordsOnly, TreeIndex, BnOk, KeptOutside, TreeBin, Elems, TailWrites, RemovedLarge, NextOf,
      PrevOf, TreeRep, Apart;
    var i := IndexFor(s, x);
    var e := Elems(s.b.trees[i]);
    LargeOut(m0, s, x);
    LargeWords(m0, s, x);
    AtNode(m0, s.b, i, x);
    SlotPlaceOf(m0, s.b, i, x);
    ChildrenBelow(m0, s, x);
    RemoveLeaf(m0, m, s.b, i, x);
    MembersLarge(m0, s.b, i);
    TailKept(m0, m, x, 0, Above(s.b, i, x), SlotHere(s.b, i, x), Above(s.b, i, x), s.b.bn, e, TB(i), TB(i) + 8);
    TreeRemoved(m0, m, s, x);
  }

  /** Case 4: x is alone in its ring, and the last leaf below takes its place. */
  lemma InnerDone(m0: Mem, m1: Mem, m: Mem, s: State, x: int)
    requires AsHead(m0, s, x) && W(m0, x + BK) == x && m.Keys == m0.Keys
    requires var n := Here(s.b, IndexFor(s, x), x);
      && DownChild(n).Node? && ZeroedAt(m0, m1, LeafSlot(DownChild(n), x + DownOffset(n)))
      && TailWrites(m1, m, x, HeadOf(LastLeaf(DownChild(n))), Above(s.b, IndexFor(s, x), x),
                    SlotHere(s.b, IndexFor(s, x), x))
    ensures HeapOk(m, UnbinnedLarge(s, x)) && FreeWordsOnly(m0, m, s.cs)
  {
    hide W, HeapOk, FreeWordsOnly, TreeIndex, BnOk, KeptOutside, TreeBin, Elems, TailWrites, ZeroedAt, RemovedLarge,
      NextOf, PrevOf, TreeRep, Apart, FreeRing, DownChild, DownOffset;
    var i := IndexFor(s, x);
    var e := Elems(s.b.trees[i]);
    var n := Here(s.b, i, x);
    LargeOut(m0, s, x);
    LargeWords(m0, s, x);
    AtNode(m0, s.b, i, x);
    SlotPlaceOf(m0, s.b, i, x);
    RemoveInner(m0, m1, m, s.b, i, x);
    MembersLarge(m0, s.b, i);
    CutKept(m0, m1, s, x);
    CutChildren(m0, m1, s, x);
    TailKept(m1, m, x, HeadOf(LastLeaf(DownChild(n))), Above(s.b, i, x), SlotHere(s.b, i, x), Above(s.b, i, x),
             s.b.bn, e, TB(i), TB(i) + 8);
    KeptTrans(m0, m1, m, s.b.bn, e, TB(i), TB(i) + 8);
    TreeRemoved(m0, m, s, x);
  }

  ghost predicate Cut(m0: Mem, m1: Mem, s: State, x: int)
    requires x in s.cs && 0 <= IndexFor(s, x) < |s.b.trees| && x in Elems(s.b.trees[IndexFor(s, x)])
  {
    var n := Here(s.b, IndexFor(s, x), x);
    DownChild(n).Node? && ZeroedAt(m0, m1, LeafSlot(DownChild(n), x + DownOffset(n)))
  }

  lemma CutKept(m0: Mem, m1: Mem, s: State, x: int)
    requires AsHead(m0, s, x) && W(m0, x + BK) == x && Cut(m0, m1, s, x)
    ensures var i := IndexFor(s, x); KeptOutside(m0, m1, s.b.bn, Elems(s.b.trees[i]), TB(i), TB(i) + 8)
  {
    hide W, HeapOk, FreeWordsOnly, TreeIndex, BnOk, KeptOutside, TreeBin, ZeroedAt, NodeRep, Apart;
    var i := IndexFor(s, x);
    var n := Here(s.b, i, x);
    LargeOut(m0, s, x);
    LargeWords(m0, s, x);
    AtNode(m0, s.b, i, x);
    MembersLarge(m0, s.b, i);
    LeafSlotPlace(m0, x, DownOffset(n), i, DownChild(n));
    var c := DownChild(n);
    var q := HeadOf(LastLeaf(c));
    var o := if q in c.ring then x else ParOf(c, q, x);
    ZeroKept(m0, m1, LeafSlot(c, x + DownOffset(n)), o, s.b.bn, Elems(s.b.trees[i]), TB(i), TB(i) + 8);
  }

  /** The last leaf that has been cut off below n, and what is left of the children. */
  ghost predicate CutBelow(m1: Mem, n: Trie, x: int, e: set<int>) {
    n.Node? && DownChild(n).Node? &&
    var c0, c1 := W(m1, x + CHILD0), W(m1, x + CHILD1);
    var last := HeadOf(LastLeaf(DownChild(n)));
    && (c0 != 0 ==> c0 in Elems(n) && c0 in e) && (c1 != 0 ==> c1 in Elems(n) && c1 in e)
    && last in Elems(n) && last in e && last != 0 && W(m1, last + CHILD0) == 0 && W(m1, last + CHILD1) == 0
  }

  lemma CutBelowDone(m0: Mem, m1: Mem, i: int, x: int, par: int, n: Trie, e: set<int>)
    requires n.Node? && n.ring == [x] && DownChild(n).Node? && TreeRep(m0, x, par, i, n) && NoRepeats(n)
    requires Apart(Elems(n)) && Elems(n) <= e && ZeroedAt(m0, m1, LeafSlot(DownChild(n), x + DownOffset(n)))
    ensures CutBelow(m1, n, x, e)
  {
    hide W, ZeroedAt, NodeRep, Apart, TreeRep, DownChild, DownOffset, LastLeaf, Elems;
    CutAtNode(m0, m1, i, x, par, n, Elems(n));
    CutParts(m0, i, x, par, n);
    ChildHeads(m1, x, i, LeftAfterCut(n), RightAfterCut(n));
    FreeRingHead(m1, LastLeaf(DownChild(n)).ring, i);
    HeadNonzero(m1, LastLeaf(DownChild(n)).ring, i);
    LeafHead(DownChild(n));
  }

  lemma LeafHead(t: Trie)
    requires t.Node?
    ensures LastLeaf(t).Node? && (LastLeaf(t).ring != [] ==> HeadOf(LastLeaf(t)) == LastLeaf(t).ring[0])
  {
  }

  lemma CutChildren(m0: Mem, m1: Mem, s: State, x: int)
    requires AsHead(m0, s, x) && W(m0, x + BK) == x && Cut(m0, m1, s, x)
    ensures var i := IndexFor(s, x);
      var e, n := Elems(s.b.trees[i]), Here(s.b, i, x);
      CutBelow(m1, n, x, e) && SameOn(m0, m1, e - Elems(n)) && W(m1, TB(i)) == W(m0, TB(i))
  {
    hide W, HeapOk, FreeWordsOnly, TreeIndex, BnOk, TreeBin, ZeroedAt, NodeRep, Apart, KeptOutside, CutBelow, SameOn;
    var i := IndexFor(s, x);
    var n := Here(s.b, i, x);
    LargeOut(m0, s, x);
    LargeWords(m0, s, x);
    AtNode(m0, s.b, i, x);
    SlotPlaceOf(m0, s.b, i, x);
    ApartSub(Elems(s.b.trees[i]), Elems(n));
    CutBelowDone(m0, m1, i, x, Above(s.b, i, x), n, Elems(s.b.trees[i]));
    CutKeepsRest(m0, m1, s.b, i, x);
  }

  /** When the tree becomes empty. */
  lemma TreeEmptied(m: Mem, s: State, x: int)
    requires LargeBinned(m, s, x)
    ensures var i := IndexFor(s, x); var n := Here(s.b, i, x);
      UnbinnedLarge(s, x).b.treemap ==
        (if W(m, TB(i)) == x && W(m, x + BK) == x && DownChild(n).Nil? then Clear(s.b.treemap, i) else s.b.treemap)
    ensures UnbinnedLarge(s, x).b.smallmap == s.b.smallmap
  {
    hide W, HeapOk, FreeWordsOnly, TreeIndex, BinBase, BinWidth, TrieOk, TreeBin, BnOk, Apart, Clear, NodeRep;
    var i := IndexFor(s, x);
    LargeOut(m, s, x);
    LargeWords(m, s, x);
    AtNode(m, s.b, i, x);
    SlotPlaceOf(m, s.b, i, x);
    RootOfTree(m, s, x);
  }

  lemma RootOfTree(m: Mem, s: State, x: int)
    requires LargeBinned(m, s, x)
    ensures var i := IndexFor(s, x); var t := s.b.trees[i];
      && t.Node? && W(m, TB(i)) == HeadOf(t)
      && (x in t.ring ==> Here(s.b, i, x) == t)
      && (x !in t.ring ==> W(m, TB(i)) != x && Remove(t, x).Node?)
  {
    hide W, HeapOk, FreeWordsOnly, TreeIndex, BinBase, BinWidth, TrieOk, BnOk, Apart, NodeRep;
    var i := IndexFor(s, x);
    LargeOut(m, s, x);
    HeadInElems(m, W(m, TB(i)), TB(i), i, s.b.trees[i]);
  }

  // The steps of the operation

  lemma XMapped(m: Mem, s: State, x: int)
    requires LargeBinned(m, s, x)
    ensures x + PARENT in m && x + BK in m && x + FD in m && x + INDEX in m
  {
    hide W, HeapOk, FreeWordsOnly, TreeIndex, Elems;
    LargeMapped(m, s, x, x);
  }

  lemma NeighboursMapped(m: Mem, s: State, x: int)
    requires LargeBinned(m, s, x)
    ensures W(m, x + FD) + BK in m && W(m, x + BK) + FD in m
  {
    hide W, HeapOk, FreeWordsOnly, TreeIndex, Elems, TreeRep, NextOf, PrevOf;
    LargeWords(m, s, x);
    RingInTree(s, x);
    LargeMapped(m, s, x, W(m, x + FD));
    LargeMapped(m, s, x, W(m, x + BK));
  }

  /** F->bk = R; R->fd = F. */
  function BridgeStores(m: Mem, f: int, r: int): Mem
    requires f + BK in m && r + FD in m
  {
    Put(Put(m, f + BK, r), r + FD, f)
  }

  lemma BridgeDone(m0: Mem, m: Mem, f: int, r: int)
    requires f + BK in m0 && r + FD in m0 && m == BridgeStores(m0, f, r) && f % 8 == 0 && r % 8 == 0 && f + BK != r + FD
    ensures OutWrites(m0, m, f, r) && m.Keys == m0.Keys
  {
    hide W;
  }

  lemma BridgeApart(m: Mem, s: State, x: int)
    requires LargeBinned(m, s, x)
    ensures var f, r := W(m, x + FD), W(m, x + BK); f % 8 == 0 && r % 8 == 0 && f + BK != r + FD
  {
    hide W, HeapOk, FreeWordsOnly, TreeIndex, Elems, TreeRep, NextOf, PrevOf, TreeBinAt;
    LargeWords(m, s, x);
    RingInTree(s, x);
    LargeOut(m, s, x);
    var f, r := W(m, x + FD), W(m, x + BK);
    assert f in s.b.bn && r in s.b.bn;
    assert ChunkOk(f, s.b.bn[f]) && ChunkOk(r, s.b.bn[r]);
  }

  /** The search for the chunk that replaces x. */
  method LastLeafOf(m: Mem, ghost s: State, x: int) returns (r: int, rp: int)
    requires LargeBinned(m, s, x) && W(m, x + BK) == x
    ensures var n := Here(s.b, IndexFor(s, x), x);
      && (DownChild(n).Nil? ==> r == 0)
      && (DownChild(n).Node? ==>
          r != 0 && r == HeadOf(LastLeaf(DownChild(n))) && rp == LeafSlot(DownChild(n), x + DownOffset(n)) && rp in m)
  {
    hide W, HeapOk, FreeWordsOnly, TreeIndex, Elems, NodeRep, DownChild, DownOffset, LastLeaf, LeafSlot, HeadOf, NextOf,
      PrevOf, TreeBinAt, BnOk;
    ghost var i := IndexFor(s, x);
    NodeReady(m, s, x);
    r, rp := FindLastLeaf(m, x, Above(s.b, i, x), i, Here(s.b, i, x), s.b.bn);
    if r != 0 {
      LeafSlotMapped(m, s, x);
    }
  }

  lemma NodeReady(m: Mem, s: State, x: int)
    requires LargeBinned(m, s, x) && W(m, x + BK) == x
    ensures var i := IndexFor(s, x);
      && 0 <= i < |s.b.trees| && x in Elems(s.b.trees[i])
      && TreeRep(m, x, Above(s.b, i, x), i, Here(s.b, i, x)) && Readable(m, s.b.bn)
      && LargeOnly(s.b.bn, Elems(Here(s.b, i, x)))
  {
    hide W, HeapOk, FreeWordsOnly, TreeIndex, NodeRep, NextOf, PrevOf, TreeBinAt, BnOk;
    LargeWords(m, s, x);
    LargeOut(m, s, x);
    BinnedReadable(m, s);
    SubAtElems(s.b.trees[IndexFor(s, x)], x);
  }

  lemma LeafSlotMapped(m: Mem, s: State, x: int)
    requires LargeBinned(m, s, x) && W(m, x + BK) == x && DownChild(Here(s.b, IndexFor(s, x), x)).Node?
    ensures var n := Here(s.b, IndexFor(s, x), x); LeafSlot(DownChild(n), x + DownOffset(n)) in m
  {
    hide W, HeapOk, FreeWordsOnly, TreeIndex, NodeRep, NextOf, PrevOf, BnOk, Apart, TreeBin;
    var i := IndexFor(s, x);
    var n := Here(s.b, i, x);
    LargeWords(m, s, x);
    LargeOut(m, s, x);
    AtNode(m, s.b, i, x);
    var c := DownChild(n);
    LeafSlotPlace(m, x, DownOffset(n), i, c);
    var q := HeadOf(LastLeaf(c));
    var o := if q in c.ring then x else ParOf(c, q, x);
    LargeMapped(m, s, x, o);
  }

  lemma CutDone(m0: Mem, m: Mem, rp: int)
    requires rp in m0 && m == Put(m0, rp, 0)
    ensures ZeroedAt(m0, m, rp) && m.Keys == m0.Keys
  {
  }

  /** x has been taken out of its ring, or its replacement r has been cut off below it. */
  ghost predicate Staged(m0: Mem, m1: Mem, s: State, x: int, r: int)
    requires x in s.cs && 0 <= IndexFor(s, x) < |s.b.trees| && x in Elems(s.b.trees[IndexFor(s, x)])
  {
    var n := Here(s.b, IndexFor(s, x), x);
    && m1.Keys == m0.Keys
    && if W(m0, x + BK) != x then r == W(m0, x + BK) && OutWrites(m0, m1, W(m0, x + FD), r)
       else if DownChild(n).Nil? then r == 0 && m1 == m0
       else r == HeadOf(LastLeaf(DownChild(n))) && Cut(m0, m1, s, x)
  }

  lemma StagedFacts(m0: Mem, m1: Mem, s: State, x: int, r: int)
    requires AsHead(m0, s, x) && Staged(m0, m1, s, x, r)
    ensures var i := IndexFor(s, x); var e := Elems(s.b.trees[i]); var n := Here(s.b, i, x);
      var c0, c1 := W(m1, x + CHILD0), W(m1, x + CHILD1);
      && (c0 != 0 ==> c0 in Elems(n) && c0 in e) && (c1 != 0 ==> c1 in Elems(n) && c1 in e)
      && SameOn(m0, m1, e - Elems(n)) && W(m1, TB(i)) == W(m0, TB(i))
      && (r != 0 ==> r in Elems(n) && r in e && W(m1, r + CHILD0) == 0 && W(m1, r + CHILD1) == 0)
      && (r == 0 ==> c0 == 0 && c1 == 0)
  {
    hide W, HeapOk, FreeWordsOnly, TreeIndex, TreeRep, BnOk, TreeBin, Apart, NodeRep, OutWrites, NextOf, PrevOf;
    var i := IndexFor(s, x);
    var n := Here(s.b, i, x);
    LargeOut(m0, s, x);
    LargeWords(m0, s, x);
    RingInTree(s, x);
    SubAtElems(s.b.trees[i], x);
    if W(m0, x + BK) != x {
      UnheadedChildren(m0, m1, s, x);
      RingNonzero(m0, s, x);
    } else if DownChild(n).Nil? {
      LeafChildren(m0, s, x);
    } else {
      CutChildren(m0, m1, s, x);
    }
  }

  lemma RingNonzero(m: Mem, s: State, x: int)
    requires LargeBinned(m, s, x)
    ensures W(m, x + BK) >= GM_END
  {
    hide W, HeapOk, FreeWordsOnly, TreeIndex, TreeRep, Elems, NextOf, PrevOf;
    LargeWords(m, s, x);
    RingInTree(s, x);
    LargeOut(m, s, x);
    assert ChunkOk(W(m, x + BK), s.b.bn[W(m, x + BK)]);
  }

  lemma LeafChildren(m: Mem, s: State, x: int)
    requires AsHead(m, s, x) && DownChild(Here(s.b, IndexFor(s, x), x)).Nil?
    ensures W(m, x + CHILD0) == 0 && W(m, x + CHILD1) == 0
  {
    hide W, HeapOk, FreeWordsOnly, TreeIndex, NodeRep, NextOf, PrevOf;
    LargeWords(m, s, x);
    var n := Here(s.b, IndexFor(s, x), x);
    ChildHeads(m, x, IndexFor(s, x), n.left, n.right);
  }

  lemma IndexKept(m0: Mem, m1: Mem, s: State, x: int, r: int)
    requires AsHead(m0, s, x) && Staged(m0, m1, s, x, r)
    ensures W(m1, x + INDEX) == IndexFor(s, x)
  {
    hide W, HeapOk, FreeWordsOnly, TreeIndex, BnOk, TreeBin, NodeRep, OutWrites, NextOf, PrevOf, Apart, ZeroedAt;
    var i := IndexFor(s, x);
    var n := Here(s.b, i, x);
    var e := Elems(s.b.trees[i]);
    LargeOut(m0, s, x);
    LargeWords(m0, s, x);
    AtNode(m0, s.b, i, x);
    RingInTree(s, x);
    if W(m0, x + BK) != x {
      OutFrame(m0, m1, n.ring, IndexOf(n.ring, x), e);
    } else if DownChild(n).Node? {
      LeafSlotPlace(m0, x, DownOffset(n), i, DownChild(n));
      var c := DownChild(n);
      var q := HeadOf(LastLeaf(c));
      ZeroIndex(m0, m1, LeafSlot(c, x + DownOffset(n)), if q in c.ring then x else ParOf(c, q, x), x, e);
    }
  }

  lemma ZeroIndex(m0: Mem, m1: Mem, slot: int, o: int, x: int, e: set<int>)
    requires ZeroedAt(m0, m1, slot) && Apart(e) && o in e && x in e && (slot == o + CHILD0 || slot == o + CHILD1)
    ensures W(m1, x + INDEX) == W(m0, x + INDEX)
  {
    hide W;
  }

  /** The slot that leads to x is found by looking at the bin's root and then at the parent's children. */
  lemma SlotFound(m0: Mem, m1: Mem, s: State, x: int, r: int)
    requires AsHead(m0, s, x) && Staged(m0, m1, s, x, r)
    ensures var i := IndexFor(s, x); var xp := W(m0, x + PARENT);
      var slot := if W(m1, TB(i)) == x then TB(i) else if W(m1, xp + CHILD0) == x then xp + CHILD0 else xp + CHILD1;
      && slot == SlotHere(s.b, i, x) && slot in m1 && TB(i) in m1 && xp == Above(s.b, i, x)
      && (W(m1, TB(i)) != x ==> xp + CHILD0 in m1 && xp + CHILD1 in m1)
      && NotLink(Elems(Here(s.b, i, x)), slot) && W(m1, TB(i)) == W(m0, TB(i))
  {
    hide W, HeapOk, FreeWordsOnly, TreeIndex, TreeRep, BnOk, TreeBin, NodeRep, NextOf, PrevOf, Apart, ZeroedAt, Staged,
      NotLink;
    var i := IndexFor(s, x);
    LargeOut(m0, s, x);
    LargeWords(m0, s, x);
    StagedFacts(m0, m1, s, x, r);
    SlotPlaceOf(m0, s.b, i, x);
    StagedKeys(m0, m1, s, x, r);
    if W(m0, TB(i)) != x {
      LargeMapped(m0, s, x, Above(s.b, i, x));
      assert Above(s.b, i, x) in Elems(s.b.trees[i]) - Elems(Here(s.b, i, x));
    }
  }

  lemma StagedKeys(m0: Mem, m1: Mem, s: State, x: int, r: int)
    requires AsHead(m0, s, x) && Staged(m0, m1, s, x, r)
    ensures m1.Keys == m0.Keys
  {
  }

  /** The chunks whose words the last part of the operation stores to. */
  lemma TailMapped(m0: Mem, m1: Mem, s: State, x: int, r: int)
    requires AsHead(m0, s, x) && Staged(m0, m1, s, x, r)
    ensures var n := Here(s.b, IndexFor(s, x), x); var c0, c1 := W(m1, x + CHILD0), W(m1, x + CHILD1);
      var e := Elems(n);
      && Apart(e) && x in e && x + CHILD0 in m1 && x + CHILD1 in m1 && x + INDEX in m1
      && (r != 0 ==> r in e && r != x && r + PARENT in m1 && r + CHILD0 in m1 && r + CHILD1 in m1)
      && (c0 != 0 ==> c0 in e && c0 != x && c0 + PARENT in m1)
      && (c1 != 0 ==> c1 in e && c1 != x && c1 + PARENT in m1)
  {
    hide W, HeapOk, FreeWordsOnly, TreeIndex, BnOk, TreeBin, NodeRep, NextOf, PrevOf, Apart, ZeroedAt, OutWrites;
    var i := IndexFor(s, x);
    var n := Here(s.b, i, x);
    LargeOut(m0, s, x);
    LargeWords(m0, s, x);
    AtNode(m0, s.b, i, x);
    ApartSub(Elems(s.b.trees[i]), Elems(n));
    StagedFacts(m0, m1, s, x, r);
    StagedNotX(m0, m1, s, x, r);
    StagedKeys(m0, m1, s, x, r);
    RingInTree(s, x);
    LargeMapped(m0, s, x, x);
    if r != 0 {
      LargeMapped(m0, s, x, r);
    }
    if W(m1, x + CHILD0) != 0 {
      LargeMapped(m0, s, x, W(m1, x + CHILD0));
    }
    if W(m1, x + CHILD1) != 0 {
      LargeMapped(m0, s, x, W(m1, x + CHILD1));
    }
  }

  /** x is neither its own replacement nor its own child, and the replacement is not its child any more. */
  lemma StagedNotX(m0: Mem, m1: Mem, s: State, x: int, r: int)
    requires AsHead(m0, s, x) && Staged(m0, m1, s, x, r)
    ensures var c0, c1 := W(m1, x + CHILD0), W(m1, x + CHILD1);
      && r != x && (c0 != 0 ==> c0 != x && c0 != r) && (c1 != 0 ==> c1 != x && c1 != r)
  {
    hide W, HeapOk, FreeWordsOnly, TreeIndex, BnOk, TreeBin, NodeRep, NextOf, PrevOf, Apart, ZeroedAt, OutWrites,
      FreeRing;
    var i := IndexFor(s, x);
    var n := Here(s.b, i, x);
    LargeOut(m0, s, x);
    LargeWords(m0, s, x);
    AtNode(m0, s.b, i, x);
    if W(m0, x + BK) != x {
      UnheadedAt(m0, m1, s.b, i, x);
      ChildHeads(m1, x, i, n.left, n.right);
      RingNonzero(m0, s, x);
    } else if DownChild(n).Nil? {
      LeafChildren(m0, s, x);
    } else {
      ApartSub(Elems(s.b.trees[i]), Elems(n));
      CutAtNode(m0, m1, i, x, Above(s.b, i, x), n, Elems(n));
      CutParts(m0, i, x, Above(s.b, i, x), n);
      CutNotX(m0, i, x, Above(s.b, i, x), n);
      ChildHeads(m1, x, i, LeftAfterCut(n), RightAfterCut(n));
      FreeRingHead(m1, LastLeaf(DownChild(n)).ring, i);
    }
  }

  lemma CutNotX(m: Mem, i: int, x: int, par: int, n: Trie)
    requires n.Node? && n.ring == [x] && DownChild(n).Node? && TreeRep(m, x, par, i, n) && NoRepeats(n)
    ensures x !in LastLeaf(DownChild(n)).ring && x !in Elems(LeftAfterCut(n)) && x !in Elems(RightAfterCut(n))
  {
    hide W, NodeRep;
    DropLeafElems(m, W(m, x + DownOffset(n)), x, i, DownChild(n));
    assert forall q :: q in LastLeaf(DownChild(n)).ring ==> q in RingSet(LastLeaf(DownChild(n)).ring);
  }

  /** Handing parent and children of x to r. */
  function AdoptStores(m: Mem, x: int, r: int, xp: int, c0: int, c1: int): Mem
    requires r + PARENT in m && r + CHILD0 in m && r + CHILD1 in m
    requires (c0 != 0 ==> c0 + PARENT in m) && (c1 != 0 ==> c1 + PARENT in m)
  {
    var m2 := Put(m, r + PARENT, xp);
    var m3 := if c0 != 0 then Put(Put(m2, r + CHILD0, c0), c0 + PARENT, r) else m2;
    if c1 != 0 then Put(Put(m3, r + CHILD1, c1), c1 + PARENT, r) else m3
  }

  lemma AdoptDone(m1: Mem, x: int, r: int, xp: int, slot: int, e: set<int>)
    requires Apart(e) && x in e && r in e && r != x && slot in m1 && NotLink(e, slot)
    requires var c0, c1 := W(m1, x + CHILD0), W(m1, x + CHILD1);
      && (c0 != 0 ==> c0 in e && c0 != x && c0 != r && c0 + PARENT in m1)
      && (c1 != 0 ==> c1 in e && c1 != x && c1 != r && c1 + PARENT in m1)
      && r + PARENT in m1 && r + CHILD0 in m1 && r + CHILD1 in m1
    requires r != 0
    ensures var c0, c1 := W(m1, x + CHILD0), W(m1, x + CHILD1);
      var m := AdoptStores(Put(m1, slot, r), x, r, xp, c0, c1);
      TailWrites(m1, m, x, r, xp, slot) && m.Keys == m1.Keys
  {
    hide W;
  }

  lemma ClearDone(m1: Mem, x: int, xp: int, slot: int)
    requires slot in m1
    ensures TailWrites(m1, Put(m1, slot, 0), x, 0, xp, slot)
  {
  }

  lemma ChildStays(m1: Mem, x: int, slot: int, r: int, e: set<int>)
    requires NotLink(e, slot) && x in e && slot in m1
    ensures W(Put(m1, slot, r), x + CHILD0) == W(m1, x + CHILD0) && W(Put(m1, slot, r), x + CHILD1) == W(m1, x + CHILD1)
  {
    hide W;
  }

  /** Step 3 of unlink_large_chunk: r takes the place of x in the tree.  root says whether x was the root. */
  method TakePlace(ghost m0: Mem, m1: Mem, x: int, r: int, xp: int, ghost s: State) returns (m: Mem, root: bool)
    requires AsHead(m0, s, x) && Staged(m0, m1, s, x, r) && xp == W(m0, x + PARENT)
    ensures TailWrites(m1, m, x, r, Above(s.b, IndexFor(s, x), x), SlotHere(s.b, IndexFor(s, x), x))
    ensures m.Keys == m0.Keys && (root <==> W(m0, TB(IndexFor(s, x))) == x)
  {
    hide W, HeapOk, FreeWordsOnly, TreeIndex, TreeRep, BnOk, TreeBin, NodeRep, Apart, NotLink, Staged, TailWrites,
      Elems, SubAt, SlotOf, ParOf, AdoptStores, Put, Get;
    ghost var e := Elems(Here(s.b, IndexFor(s, x), x));
    IndexKept(m0, m1, s, x, r);
    SlotFound(m0, m1, s, x, r);
    TailMapped(m0, m1, s, x, r);
    StagedNotX(m0, m1, s, x, r);
    StagedKeys(m0, m1, s, x, r);
    var h := TB(Get(m1, x + INDEX));
    root := Get(m1, h) == x;
    var slot := if root then h else if Get(m1, xp + CHILD0) == x then xp + CHILD0 else xp + CHILD1;
    m := Put(m1, slot, r);
    ClearDone(m1, x, xp, slot);
    if r != 0 {
      ChildStays(m1, x, slot, r, e);
      AdoptDone(m1, x, r, xp, slot, e);
      m := AdoptStores(m, x, r, xp, Get(m, x + CHILD0), Get(m, x + CHILD1));
    }
  }

  /** All cases of unlinking the tree chunk of a size class. */
  lemma HeadCases(m0: Mem, m1: Mem, m: Mem, s: State, x: int, r: int)
    requires AsHead(m0, s, x) && Staged(m0, m1, s, x, r) && m.Keys == m0.Keys
    requires TailWrites(m1, m, x, r, Above(s.b, IndexFor(s, x), x), SlotHere(s.b, IndexFor(s, x), x))
    ensures HeapOk(m, UnbinnedLarge(s, x)) && FreeWordsOnly(m0, m, s.cs)
    ensures UnbinnedLarge(s, x).b.smallmap == s.b.smallmap
    ensures var i := IndexFor(s, x);
      UnbinnedLarge(s, x).b.treemap == (if W(m0, TB(i)) == x && r == 0 then Clear(s.b.treemap, i) else s.b.treemap)
  {
    hide W, HeapOk, FreeWordsOnly, TreeIndex, TailWrites, OutWrites, ZeroedAt, UnbinnedLarge, Clear, Elems, SubAt,
      SlotOf, ParOf, HeadOf;
    TreeEmptied(m0, s, x);
    StagedNonzero(m0, m1, s, x, r);
    if W(m0, x + BK) != x {
      HeadDone(m0, m1, m, s, x);
    } else if DownChild(Here(s.b, IndexFor(s, x), x)).Nil? {
      LeafDone(m0, m, s, x);
    } else {
      InnerDone(m0, m1, m, s, x);
    }
  }

  lemma StagedNonzero(m0: Mem, m1: Mem, s: State, x: int, r: int)
    requires AsHead(m0, s, x) && Staged(m0, m1, s, x, r)
    ensures r == 0 <==> W(m0, x + BK) == x && DownChild(Here(s.b, IndexFor(s, x), x)).Nil?
  {
    hide W, HeapOk, FreeWordsOnly, TreeIndex, TreeRep, Elems, NextOf, PrevOf, OutWrites, ZeroedAt;
    if W(m0, x + BK) != x {
      RingNonzero(m0, s, x);
    } else if DownChild(Here(s.b, IndexFor(s, x), x)).Node? {
      CutChildren(m0, m1, s, x);
    }
  }
}
