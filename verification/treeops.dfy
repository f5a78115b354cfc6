/** What the pointer writes of insert_large_chunk and unlink_large_chunk do to the tree bins. */
module TreeOps {
  import opened BinIndex
  import opened BitMaps
  import opened Bins
  import opened Rings
  import opened Tries
  import opened TrieMem
  import opened Words

  ghost predicate TreeBinAt(m: Mem, b: BinState, i: int) {
    0 <= i < 32 && |b.trees| == 32 && TreeBin(m, b.treemap, i, b.trees[i], b.bn)
  }

  /** Chunks of a tree bin lie apart and occur once. */
  lemma TreeApart(m: Mem, b: BinState, i: int)
    requires TreeBinAt(m, b, i) && BnOk(b.bn)
    ensures Apart(Elems(b.trees[i])) && NoRepeats(b.trees[i])
    ensures forall p :: p in Elems(b.trees[i]) ==> p >= GM_END
  {
    hide W, TreeRep, TreeIndex;
    BinRange(i);
    TrieOkNoRepeats(b.trees[i], BinBase(i), BinWidth(i), b.bn);
  }

  // Insertion

  function InsertedLarge(b: BinState, i: int, x: int, s: int): BinState
    requires 0 <= i < |b.trees| && i < 32
  {
    b.(treemap := Mark(b.treemap, i),
       trees := b.trees[i := Insert(b.trees[i], x, s, BinBase(i), BinWidth(i))],
       bn := b.bn[x := s])
  }

  /** The new tree holds the right chunks, whatever memory says. */
  lemma InsertedTree(m: Mem, b: BinState, i: int, x: int, s: int)
    requires TreeBinAt(m, b, i) && x !in b.bn && InTreeClass(s, i) && s < TWO64
    ensures var t' := Insert(b.trees[i], x, s, BinBase(i), BinWidth(i));
      && t'.Node? && TrieOk(t', BinBase(i), BinWidth(i), b.bn[x := s])
      && Elems(t') == Elems(b.trees[i]) + {x}
      && (forall p :: p in Elems(t') ==> p in b.bn[x := s] && InTreeClass(b.bn[x := s][p], i))
      && (forall p :: p in b.bn[x := s] && InTreeClass(b.bn[x := s][p], i) ==> p in Elems(t'))
  {
    hide W, TreeRep, TreeIndex, TrieOk, BinBase, BinWidth;
    BinRange(i);
    InsertOk(b.trees[i], x, s, BinBase(i), BinWidth(i), b.bn);
    InsertElems(b.trees[i], x, s, BinBase(i), BinWidth(i));
  }

  /** The writes that hang x as a new leaf into slot, below owner. */
  ghost predicate LeafWrites(m: Mem, m': Mem, i: int, x: int, slot: int, owner: int) {
    && FreshLeaf(m', x, owner, i)
    && W(m', slot) == x
    && forall a :: a != slot && (a < x + FD || a >= x + TCHUNK_SIZE) ==> W(m', a) == W(m, a)
  }

  lemma LeafWritesSame(m: Mem, m': Mem, i: int, x: int, slot: int, owner: int, e: set<int>)
    requires LeafWrites(m, m', i, x, slot, owner) && ApartFrom(e, x)
    requires forall p :: p in e ==> slot < p + FD || slot >= p + TCHUNK_SIZE || slot == p + CHILD0 || slot == p + CHILD1
    ensures SameBut(m, m', e, slot)
  {
    hide W;
  }

  /** Where the slot is: the bin's root word, or a child word of a chunk of the tree. */
  lemma SlotPlace(m: Mem, b: BinState, i: int, s: int)
    requires TreeBinAt(m, b, i) && BnOk(b.bn)
    requires SameSizeNode(b.trees[i], s, BinBase(i), BinWidth(i)).Nil?
    ensures var slot := InsertSlot(b.trees[i], s, BinBase(i), BinWidth(i), TB(i));
      && (b.trees[i].Nil? ==> slot == TB(i))
      && (b.trees[i].Node? ==> slot != TB(i) && exists o ::
           o in Elems(b.trees[i]) && (slot == o + CHILD0 || slot == o + CHILD1))
      && forall p :: p in Elems(b.trees[i]) ==>
         slot < p + FD || slot >= p + TCHUNK_SIZE || slot == p + CHILD0 || slot == p + CHILD1
  {
    hide W, TreeIndex, TrieOk, BinBase, BinWidth;
    TreeApart(m, b, i);
    var t := b.trees[i];
    if t.Node? {
      InsertSlotInside(m, W(m, TB(i)), TB(i), i, t, s, BinBase(i), BinWidth(i), TB(i));
    }
  }

  lemma ApartFromNew(m: Mem, b: BinState, i: int, x: int, s: int)
    requires TreeBinAt(m, b, i) && x !in b.bn && BnOk(b.bn[x := s]) && s >= MIN_LARGE_SIZE
    ensures ApartFrom(Elems(b.trees[i]), x) && BnOk(b.bn)
  {
    hide W, TreeRep, TrieOk, TreeIndex;
    var all := b.bn[x := s];
    assert forall p :: p in b.bn ==> p in all && all[p] == b.bn[p];
  }

  lemma LeafIntoTree(m: Mem, m': Mem, i: int, t: Trie, x: int, s: int, lo: int, w: int)
    requires TreeRep(m, W(m, TB(i)), TB(i), i, t) && NoRepeats(t) && Apart(Elems(t)) && ApartFrom(Elems(t), x)
    requires SameSizeNode(t, s, lo, w).Nil? && x >= GM_END && 0 <= i < 32
    requires var slot := InsertSlot(t, s, lo, w, TB(i));
      && LeafWrites(m, m', i, x, slot, InsertParent(t, s, lo, w, TB(i)))
      && (t.Node? ==> slot != TB(i))
      && forall p :: p in Elems(t) ==>
         slot < p + FD || slot >= p + TCHUNK_SIZE || slot == p + CHILD0 || slot == p + CHILD1
    ensures TreeRep(m', W(m', TB(i)), TB(i), i, Insert(t, x, s, lo, w))
  {
    hide W, NodeRep, Apart, ApartFrom, NoRepeats, Elems, FreshLeaf, SameBut;
    LeafWritesSame(m, m', i, x, InsertSlot(t, s, lo, w, TB(i)), InsertParent(t, s, lo, w, TB(i)), Elems(t));
    InsertLeafRep(m, m', W(m, TB(i)), TB(i), i, t, x, s, lo, w, TB(i));
  }

  /** insert_large_chunk, when x is the first of its size. */
  lemma InsertLeafOwn(m: Mem, m': Mem, b: BinState, i: int, x: int, s: int)
    requires TreeBinAt(m, b, i) && x !in b.bn && BnOk(b.bn[x := s]) && InTreeClass(s, i)
    requires SameSizeNode(b.trees[i], s, BinBase(i), BinWidth(i)).Nil?
    requires LeafWrites(m, m', i, x, InsertSlot(b.trees[i], s, BinBase(i), BinWidth(i), TB(i)),
                        InsertParent(b.trees[i], s, BinBase(i), BinWidth(i), TB(i)))
    ensures TreeBinAt(m', InsertedLarge(b, i, x, s), i)
  {
    hide W, TreeRep, TreeIndex, TrieOk, BinBase, BinWidth, LeafWrites, Apart, ApartFrom, Elems, NoRepeats, BnOk;
    ChunkFacts(b.bn[x := s], x);
    ApartFromNew(m, b, i, x, s);
    TreeApart(m, b, i);
    SlotPlace(m, b, i, s);
    LeafIntoTree(m, m', i, b.trees[i], x, s, BinBase(i), BinWidth(i));
    InsertedTree(m, b, i, x, s);
  }

  lemma ChunkFacts(bn: map<int, int>, x: int)
    requires BnOk(bn) && x in bn
    ensures ChunkOk(x, bn[x])
  {
  }

  /** The slot's owner is in the tree, so all writes stay inside the bin and x. */
  lemma LeafWritesKept(m: Mem, m': Mem, b: BinState, i: int, x: int, s: int)
    requires TreeBinAt(m, b, i) && x !in b.bn && BnOk(b.bn[x := s]) && InTreeClass(s, i)
    requires SameSizeNode(b.trees[i], s, BinBase(i), BinWidth(i)).Nil?
    requires LeafWrites(m, m', i, x, InsertSlot(b.trees[i], s, BinBase(i), BinWidth(i), TB(i)),
                        InsertParent(b.trees[i], s, BinBase(i), BinWidth(i), TB(i)))
    ensures KeptOutside(m, m', b.bn[x := s], Elems(b.trees[i]) + {x}, TB(i), TB(i) + 8)
  {
    ApartFromNew(m, b, i, x, s);
    SlotPlace(m, b, i, s);
    hide W, TreeRep, TreeIndex, TrieOk, BinBase, BinWidth, Elems, BnOk;
  }

  /** The writes that link x in behind h, the tree chunk of its size. */
  ghost predicate ChainWrites(m: Mem, m': Mem, i: int, x: int, h: int) {
    var f := W(m, h + FD);
    && W(m', h + FD) == x && W(m', f + BK) == x && W(m', x + FD) == f && W(m', x + BK) == h
    && ChainedRep(m', x) && W(m', x + INDEX) == i
    && forall a :: a != h + FD && a != f + BK && (a < x + FD || a >= x + TCHUNK_SIZE) ==> W(m', a) == W(m, a)
  }

  lemma RingSpaced(e: set<int>, ring: seq<int>, x: int)
    requires Apart(e) && ApartFrom(e, x) && RingSet(ring) <= e && Distinct(ring)
    ensures Spaced(ring) && AwayFrom(ring, x)
  {
    forall k | 0 <= k < |ring| ensures ring[k] in e {
      assert ring[k] in RingSet(ring);
    }
  }

  /** Chain writes only reach the fd of h and the bk of its successor. */
  lemma ChainWritesFrame(m: Mem, m': Mem, i: int, x: int, ring: seq<int>, e: set<int>)
    requires ring != [] && ChainWrites(m, m', i, x, ring[0]) && W(m, ring[0] + FD) == NextOf(ring, 0)
    requires Apart(e) && ApartFrom(e, x) && RingSet(ring) <= e
    ensures forall q ::
      q in e ==> W(m', q + PARENT) == W(m, q + PARENT) && W(m', q + INDEX) == W(m, q + INDEX) && SameKids(m, m', q)
    ensures forall q :: q in e && q !in ring ==> SameNode(m, m', q) && SameKids(m, m', q)
  {
    hide W;
    assert NextOf(ring, 0) in RingSet(ring) && ring[0] in RingSet(ring);
  }

  lemma ChainLinks(m: Mem, m': Mem, i: int, x: int, ring: seq<int>)
    requires ring != [] && ChainWrites(m, m', i, x, ring[0]) && W(m, ring[0] + FD) == NextOf(ring, 0)
    requires Spaced(ring) && AwayFrom(ring, x)
    requires forall k :: 0 <= k < |ring| ==> ring[k] + TCHUNK_SIZE <= x || x + TCHUNK_SIZE <= ring[k]
    ensures LinkedIn(m, m', ring, x)
  {
    hide W;
  }

  lemma ChainAtNode(m: Mem, m': Mem, i: int, p: int, par: int, n: Trie, x: int)
    requires n.Node? && TreeRep(m, p, par, i, n) && NoRepeats(n) && Apart(Elems(n)) && ApartFrom(Elems(n), x)
    requires ChainWrites(m, m', i, x, p)
    ensures TreeRep(m', p, par, i, n.(ring := AfterHead(n.ring, x)))
  {
    hide W, Apart, ApartFrom, NextOf, PrevOf, ChainWrites, Spaced, AwayFrom;
    HeadInElems(m, p, par, i, n);
    FirstLink(m, par, i, n.ring);
    RingSpaced(Elems(n), n.ring, x);
    ChainWritesFrame(m, m', i, x, n.ring, Elems(n));
    ChainClear(Elems(n), n.ring, x);
    ChainLinks(m, m', i, x, n.ring);
    ChainWritesNew(m, m', i, x, p);
    ChainRep(m, m', p, par, i, n, x);
  }

  lemma FirstLink(m: Mem, par: int, i: int, ring: seq<int>)
    requires NodeRep(m, ring, par, i)
    ensures ring != [] && W(m, ring[0] + FD) == NextOf(ring, 0) && W(m, ring[0] + BK) == PrevOf(ring, 0)
  {
  }

  lemma ChainClear(e: set<int>, ring: seq<int>, x: int)
    requires ApartFrom(e, x) && RingSet(ring) <= e
    ensures forall k :: 0 <= k < |ring| ==> ring[k] + TCHUNK_SIZE <= x || x + TCHUNK_SIZE <= ring[k]
  {
    forall k | 0 <= k < |ring| ensures ring[k] in e {
      assert ring[k] in RingSet(ring);
    }
  }

  lemma ChainWritesNew(m: Mem, m': Mem, i: int, x: int, h: int)
    requires ChainWrites(m, m', i, x, h)
    ensures ChainedRep(m', x) && W(m', x + INDEX) == i
  {
  }

  lemma ChainIntoTree(m: Mem, m': Mem, i: int, t: Trie, x: int, s: int, lo: int, w: int)
    requires TreeRep(m, W(m, TB(i)), TB(i), i, t) && NoRepeats(t) && Apart(Elems(t)) && ApartFrom(Elems(t), x)
    requires SameSizeNode(t, s, lo, w).Node? && 0 <= i < 32 && x >= GM_END && forall p :: p in Elems(t) ==> p >= GM_END
    requires ChainWrites(m, m', i, x, HeadOf(SameSizeNode(t, s, lo, w)))
    ensures TreeRep(m', W(m', TB(i)), TB(i), i, Insert(t, x, s, lo, w))
  {
    hide W, NodeRep, ChainWrites, Apart, ApartFrom, NoRepeats, Elems, TreeRep;
    var n := SameSizeNode(t, s, lo, w);
    var h := HeadOf(n);
    var root := W(m, TB(i));
    SameSizeIsPutAt(m, root, TB(i), i, t, x, s, lo, w);
    SubAtRep(m, root, TB(i), i, t, h);
    SubAtElems(t, h);
    ApartSubset(Elems(t), Elems(n), x);
    ChainAtNode(m, m', i, h, ParOf(t, h, TB(i)), n, x);
    ChainPath(m, m', i, t, n, x, h);
    PutAtRep(m, m', root, TB(i), i, t, h, n.(ring := AfterHead(n.ring, x)), h, TB(i));
    HeadPut(m, i, t, h);
  }

  lemma ApartSubset(e: set<int>, e': set<int>, x: int)
    requires Apart(e) && ApartFrom(e, x) && e' <= e
    ensures Apart(e') && ApartFrom(e', x)
  {
  }

  /** If the node of its own head h is the root, the root pointer is h. */
  lemma HeadPut(m: Mem, i: int, t: Trie, h: int)
    requires h in Elems(t) && h == HeadOf(SubAt(t, h)) && TreeRep(m, W(m, TB(i)), TB(i), i, t)
    ensures h in t.ring ==> W(m, TB(i)) == h
  {
    hide W, NodeRep;
    HeadInElems(m, W(m, TB(i)), TB(i), i, t);
  }

  /** Linking a chunk behind h changes no child word of the tree, and of the other nodes nothing. */
  lemma ChainOutside(m: Mem, m': Mem, i: int, t: Trie, n: Trie, x: int, h: int, par: int)
    requires n.Node? && TreeRep(m, h, par, i, n) && Elems(n) <= Elems(t) && Apart(Elems(t)) && ApartFrom(Elems(t), x)
    requires ChainWrites(m, m', i, x, h) && 0 <= i < 32 && x >= GM_END && forall p :: p in Elems(t) ==> p >= GM_END
    ensures forall q :: q in Elems(t) ==> SameKids(m, m', q)
    ensures forall q :: q in Elems(t) && q !in n.ring ==> SameNode(m, m', q)
    ensures W(m', TB(i)) == W(m, TB(i))
  {
    hide W, Apart, ApartFrom, NextOf, ChainWrites, NodeRep, SameKids, SameNode;
    HeadInElems(m, h, par, i, n);
    FirstLink(m, par, i, n.ring);
    ChainWritesFrame(m, m', i, x, n.ring, Elems(t));
    assert forall q :: q in n.ring ==> q in RingSet(n.ring);
    ChainStatic(m, m', i, x, n.ring);
  }

  lemma ChainPath(m: Mem, m': Mem, i: int, t: Trie, n: Trie, x: int, h: int)
    requires TreeRep(m, W(m, TB(i)), TB(i), i, t) && NoRepeats(t) && Apart(Elems(t)) && ApartFrom(Elems(t), x)
    requires h in Elems(t) && n == SubAt(t, h) && h == HeadOf(n)
    requires ChainWrites(m, m', i, x, h) && 0 <= i < 32 && x >= GM_END && forall p :: p in Elems(t) ==> p >= GM_END
    ensures SameBut(m, m', Elems(t) - Elems(n), SlotOf(t, h, TB(i)))
    ensures W(m', SlotOf(t, h, TB(i))) == h
    ensures W(m', TB(i)) == W(m, TB(i))
  {
    hide W, Apart, ApartFrom, ChainWrites, NodeRep, TreeRep, SameNode, SameKids, SameBut, NoRepeats, ParOf, SlotOf,
      Elems;
    SubAtRep(m, W(m, TB(i)), TB(i), i, t, h);
    SubAtElems(t, h);
    ChainOutside(m, m', i, t, n, x, h, ParOf(t, h, TB(i)));
    RingWithin(n);
    SameButFrom(m, m', Elems(t) - Elems(n), SlotOf(t, h, TB(i)));
    ChainSlot(m, m', i, t, h);
  }

  lemma SameButFrom(m: Mem, m': Mem, e: set<int>, c: int)
    requires forall q :: q in e ==> SameNode(m, m', q) && SameKids(m, m', q)
    ensures SameBut(m, m', e, c)
  {
    hide W, SameNode;
  }

  lemma ChainSlot(m: Mem, m': Mem, i: int, t: Trie, h: int)
    requires TreeRep(m, W(m, TB(i)), TB(i), i, t) && NoRepeats(t) && h in Elems(t) && h == HeadOf(SubAt(t, h))
    requires W(m', TB(i)) == W(m, TB(i)) && forall q :: q in Elems(t) ==> SameKids(m, m', q)
    ensures W(m', SlotOf(t, h, TB(i))) == h
  {
    hide W, TreeRep, NoRepeats, ParOf;
    if h in t.ring {
      HeadPut(m, i, t, h);
    } else {
      SlotOfInside(m, W(m, TB(i)), TB(i), i, t, h, TB(i));
    }
  }

  lemma RingWithin(n: Trie)
    requires n.Node?
    ensures forall q :: q in n.ring ==> q in Elems(n)
  {
  }

  lemma ChainStatic(m: Mem, m': Mem, i: int, x: int, ring: seq<int>)
    requires ring != [] && ChainWrites(m, m', i, x, ring[0]) && W(m, ring[0] + FD) == NextOf(ring, 0)
    requires 0 <= i < 32 && x >= GM_END && forall q :: q in ring ==> q >= GM_END
    ensures W(m', TB(i)) == W(m, TB(i))
  {
    hide W;
    assert NextOf(ring, 0) in ring && ring[0] in ring;
  }

  lemma ChainWritesKept(m: Mem, m': Mem, i: int, x: int, h: int, bn: map<int, int>, e: set<int>, lo: int, hi: int)
    requires ChainWrites(m, m', i, x, h) && h in e && W(m, h + FD) in e && x in e
    requires forall p :: p in e ==> p in bn && bn[p] >= TCHUNK_SIZE
    ensures KeptOutside(m, m', bn, e, lo, hi)
  {
    hide W;
  }

  /** insert_large_chunk, when the tree already has a chunk of the same size. */
  lemma InsertChainOwn(m: Mem, m': Mem, b: BinState, i: int, x: int, s: int)
    requires TreeBinAt(m, b, i) && x !in b.bn && BnOk(b.bn[x := s]) && InTreeClass(s, i)
    requires SameSizeNode(b.trees[i], s, BinBase(i), BinWidth(i)).Node?
    requires ChainWrites(m, m', i, x, HeadOf(SameSizeNode(b.trees[i], s, BinBase(i), BinWidth(i))))
    ensures TreeBinAt(m', InsertedLarge(b, i, x, s), i)
    ensures KeptOutside(m, m', b.bn[x := s], Elems(b.trees[i]) + {x}, TB(i), TB(i) + 8)
  {
    hide W, TreeRep, TreeIndex, TrieOk, BinBase, BinWidth, ChainWrites, Apart, ApartFrom, Elems, NoRepeats, BnOk,
      KeptOutside;
    ChunkFacts(b.bn[x := s], x);
    ApartFromNew(m, b, i, x, s);
    TreeApart(m, b, i);
    ChainIntoTree(m, m', i, b.trees[i], x, s, BinBase(i), BinWidth(i));
    InsertedTree(m, b, i, x, s);
    HeadAndNext(m, b, i, x, s);
    ChainWritesKept(m, m', i, x, HeadOf(SameSizeNode(b.trees[i], s, BinBase(i), BinWidth(i))), b.bn[x := s],
                    Elems(b.trees[i]) + {x}, TB(i), TB(i) + 8);
  }

  lemma HeadAndNext(m: Mem, b: BinState, i: int, x: int, s: int)
    requires TreeBinAt(m, b, i) && NoRepeats(b.trees[i])
    requires SameSizeNode(b.trees[i], s, BinBase(i), BinWidth(i)).Node?
    ensures var h := HeadOf(SameSizeNode(b.trees[i], s, BinBase(i), BinWidth(i)));
      h in Elems(b.trees[i]) && W(m, h + FD) in Elems(b.trees[i])
  {
    hide W, TreeIndex, TrieOk, BinBase, BinWidth, NodeRep;
    var t := b.trees[i];
    var n := SameSizeNode(t, s, BinBase(i), BinWidth(i));
    SameSizeIsPutAt(m, W(m, TB(i)), TB(i), i, t, x, s, BinBase(i), BinWidth(i));
    SubAtRep(m, W(m, TB(i)), TB(i), i, t, HeadOf(n));
    SubAtElems(t, HeadOf(n));
    FirstLink(m, ParOf(t, HeadOf(n), TB(i)), i, n.ring);
    assert NextOf(n.ring, 0) in n.ring;
    assert forall q :: q in n.ring ==> q in Elems(n);
  }
}
