/** What the pointer writes of unlink_large_chunk do to the tree bins. */
module TreeRemove {
  import opened BinIndex
  import opened BitMaps
  import opened Bins
  import opened Rings
  import opened Tries
  import opened TrieMem
  import opened TreeOps
  import opened Words

  /** The last part of unlink_large_chunk: slot, which led to x, now leads to r, and r takes over the
      parent and the children of x.  With r == 0 the slot is just cleared. */
  ghost predicate TailWrites(m: Mem, m': Mem, x: int, r: int, xp: int, slot: int) {
    var c0, c1 := W(m, x + CHILD0), W(m, x + CHILD1);
    && W(m', slot) == r
    && (r != 0 ==>
      && W(m', r + PARENT) == xp
      && W(m', r + CHILD0) == (if c0 != 0 then c0 else W(m, r + CHILD0))
      && W(m', r + CHILD1) == (if c1 != 0 then c1 else W(m, r + CHILD1))
      && (c0 != 0 ==> W(m', c0 + PARENT) == r)
      && (c1 != 0 ==> W(m', c1 + PARENT) == r))
    && forall a {:trigger W(m', a)} ::
      && a != slot
      && (r == 0 || NoTailWord(a, r, c0, c1))
      ==> W(m', a) == W(m, a)
  }

  predicate NoTailWord(a: int, r: int, c0: int, c1: int) {
    && a != r + PARENT && a != r + CHILD0 && a != r + CHILD1
    && (c0 == 0 || a != c0 + PARENT) && (c1 == 0 || a != c1 + PARENT)
  }

  /** The word at c lies in no link area of s. */
  ghost predicate NotLink(s: set<int>, c: int) {
    forall q :: q in s ==> c < q + FD || c >= q + TCHUNK_SIZE
  }

  /** Tail writes reach a chunk other than r only in the parent word of a child of x. */
  lemma TailFrame(m: Mem, m': Mem, x: int, r: int, xp: int, slot: int, all: set<int>, e: set<int>)
    requires TailWrites(m, m', x, r, xp, slot) && NotLink(e, slot) && Apart(all) && e <= all
    requires r != 0 ==> r in all && r !in e
    requires var c0, c1 := W(m, x + CHILD0), W(m, x + CHILD1); (c0 != 0 ==> c0 in all) && (c1 != 0 ==> c1 in all)
    ensures forall q :: q in e ==>
      && W(m', q + FD) == W(m, q + FD) && W(m', q + BK) == W(m, q + BK)
      && W(m', q + INDEX) == W(m, q + INDEX) && SameKids(m, m', q)
      && (q == W(m, x + CHILD0) != 0 || q == W(m, x + CHILD1) != 0 || W(m', q + PARENT) == W(m, q + PARENT))
  {
    hide W;
  }

  lemma TailAtRing(m: Mem, m': Mem, x: int, r: int, xp: int, slot: int, all: set<int>)
    requires TailWrites(m, m', x, r, xp, slot) && Apart(all) && r != 0 && r in all && NotLink({r}, slot)
    requires var c0, c1 := W(m, x + CHILD0), W(m, x + CHILD1);
      (c0 != 0 ==> c0 in all && c0 != r) && (c1 != 0 ==> c1 in all && c1 != r)
    ensures W(m', r + FD) == W(m, r + FD) && W(m', r + BK) == W(m, r + BK) && W(m', r + INDEX) == W(m, r + INDEX)
  {
    hide W;
  }

  /** A leaf ring on its way to becoming the root of a subtree. */
  ghost predicate FreeRing(m: Mem, ring: seq<int>, i: int) {
    && ring != [] && Distinct(ring)
    && NodeRep(m, ring, W(m, ring[0] + PARENT), i)
    && W(m, ring[0] + CHILD0) == 0 && W(m, ring[0] + CHILD1) == 0
  }

  ghost predicate DisjointParts(ring: seq<int>, l: Trie, r: Trie) {
    && (forall p :: p in ring ==> p !in Elems(l) && p !in Elems(r))
    && (forall p :: p in Elems(l) ==> p !in Elems(r))
  }

  /** The ring headed by r, given x's place, with x's children below it. */
  lemma TailRep(m: Mem, m': Mem, i: int, x: int, xp: int, slot: int, ring: seq<int>, size: int, l: Trie, r: Trie,
                all: set<int>)
    requires FreeRing(m, ring, i) && TailWrites(m, m', x, ring[0], xp, slot)
    requires TreeRep(m, W(m, x + CHILD0), x, i, l) && TreeRep(m, W(m, x + CHILD1), x, i, r) && NoRepeats(l)
    requires NoRepeats(r)
    requires DisjointParts(ring, l, r) && Apart(all) && RingSet(ring) + Elems(l) + Elems(r) <= all && NotLink(all, slot)
    ensures TreeRep(m', ring[0], xp, i, Node(ring, size, l, r))
  {
    hide W, NodeRep, Apart, TailWrites, NotLink, TreeRep, NoRepeats;
    var h := ring[0];
    var c0, c1 := W(m, x + CHILD0), W(m, x + CHILD1);
    assert h in RingSet(ring);
    ChildHeads(m, x, i, l, r);
    NotLinkSubset(all, RingSet(ring) - {h}, slot);
    NotLinkSubset(all, Elems(l), slot);
    NotLinkSubset(all, Elems(r), slot);
    NotLinkSubset(all, {h}, slot);
    HeadNonzero(m, ring, i);
    TailAtRing(m, m', x, h, xp, slot, all);
    TailFrame(m, m', x, h, xp, slot, all, RingSet(ring) - {h});
    TailFrame(m, m', x, h, xp, slot, all, Elems(l));
    TailFrame(m, m', x, h, xp, slot, all, Elems(r));
    TailWords(m, m', x, h, xp, slot);
    assert forall q :: q in ring && q != h ==> q in RingSet(ring) - {h};
    AdoptNode(m, m', W(m, h + PARENT), xp, i, ring);
    AdoptRep(m, m', c0, x, h, i, l);
    AdoptRep(m, m', c1, x, h, i, r);
    NodeOf(m', h, xp, i, Node(ring, size, l, r));
  }

  lemma HeadNonzero(m: Mem, ring: seq<int>, i: int)
    requires FreeRing(m, ring, i)
    ensures ring[0] != 0
  {
  }

  lemma TailWords(m: Mem, m': Mem, x: int, r: int, xp: int, slot: int)
    requires TailWrites(m, m', x, r, xp, slot) && r != 0 && W(m, r + CHILD0) == 0 && W(m, r + CHILD1) == 0
    ensures var c0, c1 := W(m, x + CHILD0), W(m, x + CHILD1);
      && W(m', r + PARENT) == xp && W(m', r + CHILD0) == c0 && W(m', r + CHILD1) == c1
      && (c0 != 0 ==> W(m', c0 + PARENT) == r) && (c1 != 0 ==> W(m', c1 + PARENT) == r)
  {
  }

  lemma NotLinkSubset(all: set<int>, e: set<int>, c: int)
    requires NotLink(all, c) && e <= all
    ensures NotLink(e, c)
  {
  }

  lemma ChildHeads(m: Mem, x: int, i: int, l: Trie, r: Trie)
    requires TreeRep(m, W(m, x + CHILD0), x, i, l) && TreeRep(m, W(m, x + CHILD1), x, i, r)
    ensures var c0, c1 := W(m, x + CHILD0), W(m, x + CHILD1);
      && (if l.Node? then c0 in Elems(l) && c0 != 0 else c0 == 0)
      && (if r.Node? then c1 in Elems(r) && c1 != 0 else c1 == 0)
  {
    hide W, NodeRep;
    if l.Node? {
      HeadInElems(m, W(m, x + CHILD0), x, i, l);
    }
    if r.Node? {
      HeadInElems(m, W(m, x + CHILD1), x, i, r);
    }
  }

  function RemovedLarge(b: BinState, i: int, x: int): BinState
    requires 0 <= i < |b.trees| && i < 32 && x in Elems(b.trees[i])
  {
    var t' := Remove(b.trees[i], x);
    b.(treemap := if t'.Nil? then Clear(b.treemap, i) else b.treemap, trees := b.trees[i := t'], bn := b.bn - {x})
  }

  /** Where x is in tree i: its node, the parent word of the node's head, and the slot that leads to it. */
  function Here(b: BinState, i: int, x: int): Trie
    requires 0 <= i < |b.trees| && x in Elems(b.trees[i])
  {
    SubAt(b.trees[i], x)
  }

  function Above(b: BinState, i: int, x: int): int
    requires 0 <= i < |b.trees| && x in Elems(b.trees[i])
  {
    ParOf(b.trees[i], x, TB(i))
  }

  function SlotHere(b: BinState, i: int, x: int): int
    requires 0 <= i < |b.trees| && x in Elems(b.trees[i])
  {
    SlotOf(b.trees[i], x, TB(i))
  }

  /** Everything but the node of x and what hangs below it is as before, apart from the slot that leads to it. */
  ghost predicate RestKept(m: Mem, m': Mem, b: BinState, i: int, x: int, r: int)
    requires 0 <= i < |b.trees| && x in Elems(b.trees[i])
  {
    && SameBut(m, m', Elems(b.trees[i]) - Elems(Here(b, i, x)), SlotHere(b, i, x))
    && W(m', SlotHere(b, i, x)) == r
    && (SlotHere(b, i, x) != TB(i) ==> W(m', TB(i)) == W(m, TB(i)))
  }

  /** The new tree holds the right chunks, whatever memory says. */
  lemma RemovedTree(m: Mem, b: BinState, i: int, x: int)
    requires TreeBinAt(m, b, i) && x in Elems(b.trees[i])
    ensures var t' := Remove(b.trees[i], x);
      && TrieOk(t', BinBase(i), BinWidth(i), b.bn - {x})
      && (forall p :: p in Elems(t') ==> p in b.bn - {x} && InTreeClass((b.bn - {x})[p], i))
      && (forall p :: p in b.bn - {x} && InTreeClass((b.bn - {x})[p], i) ==> p in Elems(t'))
  {
    hide W, TreeRep, TreeIndex, TrieOk, BinBase, BinWidth;
    BinRange(i);
    WidthPositive(i);
    RemoveOk(b.trees[i], x, BinBase(i), BinWidth(i), b.bn);
  }

  lemma WidthPositive(i: int)
    ensures BinWidth(i) > 0
  {
  }

  lemma FinishRemove(m: Mem, m': Mem, b: BinState, i: int, x: int, r: int)
    requires TreeBinAt(m, b, i) && BnOk(b.bn) && x in Elems(b.trees[i])
    requires TreeRep(m', r, Above(b, i, x), i, RemoveHere(Here(b, i, x), x)) && RestKept(m, m', b, i, x, r)
    ensures TreeBinAt(m', RemovedLarge(b, i, x), i)
  {
    hide W, NodeRep, TreeIndex, TrieOk, BinBase, BinWidth, Apart, NoRepeats, BnOk, SameBut;
    var t := b.trees[i];
    var root := W(m, TB(i));
    TreeApart(m, b, i);
    RemoveIsPutAt(t, x);
    PutAtRep(m, m', root, TB(i), i, t, x, RemoveHere(Here(b, i, x), x), r, TB(i));
    SlotIsRoot(m, i, t, x);
    RemovedTree(m, b, i, x);
  }

  lemma SlotIsRoot(m: Mem, i: int, t: Trie, x: int)
    requires 0 <= i < 32 && x in Elems(t) && TreeRep(m, W(m, TB(i)), TB(i), i, t) && NoRepeats(t)
    requires forall p :: p in Elems(t) ==> p >= GM_END
    ensures x in t.ring <==> SlotOf(t, x, TB(i)) == TB(i)
  {
    hide W, NodeRep;
    if x !in t.ring {
      SlotOfInside(m, W(m, TB(i)), TB(i), i, t, x, TB(i));
    }
  }

  // Unlinking x from its ring

  /** F->bk = R; R->fd = F. */
  ghost predicate OutWrites(m: Mem, m': Mem, f: int, k: int) {
    && W(m', f + BK) == k && W(m', k + FD) == f
    && forall a :: a != f + BK && a != k + FD ==> W(m', a) == W(m, a)
  }

  lemma OutLinks(m: Mem, m': Mem, r: seq<int>, j: int)
    requires 0 <= j < |r| && |r| >= 2 && Spaced(r) && OutWrites(m, m', NextOf(r, j), PrevOf(r, j))
    ensures LinkedOut(m, m', r, j)
  {
    hide W;
  }

  lemma OutFrame(m: Mem, m': Mem, ring: seq<int>, j: int, e: set<int>)
    requires 0 <= j < |ring| && OutWrites(m, m', NextOf(ring, j), PrevOf(ring, j))
    requires Apart(e) && RingSet(ring) <= e
    ensures forall q ::
      q in e ==> W(m', q + PARENT) == W(m, q + PARENT) && W(m', q + INDEX) == W(m, q + INDEX) && SameKids(m, m', q)
    ensures forall q :: q in e && q !in ring ==> SameNode(m, m', q) && SameKids(m, m', q)
  {
    hide W;
    assert NextOf(ring, j) in RingSet(ring) && PrevOf(ring, j) in RingSet(ring);
  }

  lemma OutStatic(m: Mem, m': Mem, ring: seq<int>, j: int, a: int)
    requires 0 <= j < |ring| && OutWrites(m, m', NextOf(ring, j), PrevOf(ring, j))
    requires a < GM_END && forall q :: q in ring ==> q >= GM_END
    ensures W(m', a) == W(m, a)
  {
    hide W;
    assert NextOf(ring, j) in ring && PrevOf(ring, j) in ring;
  }

  lemma RingWithin(e: set<int>, ring: seq<int>)
    requires Apart(e) && RingSet(ring) <= e && Distinct(ring)
    ensures Spaced(ring)
  {
    forall k | 0 <= k < |ring| ensures ring[k] in e {
      assert ring[k] in RingSet(ring);
    }
  }

  lemma LinksAt(m: Mem, par: int, i: int, ring: seq<int>, j: int)
    requires NodeRep(m, ring, par, i) && 0 <= j < |ring|
    ensures W(m, ring[j] + FD) == NextOf(ring, j) && W(m, ring[j] + BK) == PrevOf(ring, j)
  {
  }

  /** What the proofs of the cases start from. */
  lemma AtNode(m: Mem, b: BinState, i: int, x: int)
    requires TreeBinAt(m, b, i) && BnOk(b.bn) && x in Elems(b.trees[i])
    ensures var n := Here(b, i, x);
      && NoRepeats(n) && TreeRep(m, HeadOf(n), Above(b, i, x), i, n)
      && HeadOf(n) in n.ring && HeadOf(n) == n.ring[0] && HeadOf(n) != 0 && RingSet(n.ring) <= Elems(n)
      && Elems(n) <= Elems(b.trees[i]) && Apart(Elems(b.trees[i]))
      && (forall p :: p in Elems(b.trees[i]) ==> p >= GM_END)
  {
    hide W, NodeRep, TreeIndex, TrieOk, BinBase, BinWidth, Apart, BnOk;
    TreeApart(m, b, i);
    SubAtRep(m, W(m, TB(i)), TB(i), i, b.trees[i], x);
    SubAtElems(b.trees[i], x);
    HeadInElems(m, HeadOf(Here(b, i, x)), Above(b, i, x), i, Here(b, i, x));
  }

  /** The slot that leads to the node of x: the bin's root word or a child word of a chunk elsewhere in the tree. */
  lemma SlotPlaceOf(m: Mem, b: BinState, i: int, x: int)
    requires TreeBinAt(m, b, i) && BnOk(b.bn) && x in Elems(b.trees[i])
    ensures var n, slot, o := Here(b, i, x), SlotHere(b, i, x), Above(b, i, x);
      && W(m, slot) == HeadOf(n) && NotLink(Elems(n), slot)
      && (slot == TB(i) || (o in Elems(b.trees[i]) && o !in Elems(n) && (slot == o + CHILD0 || slot == o + CHILD1)))
      && (slot == TB(i) ==> o == TB(i))
      && (slot == o + CHILD1 && slot != TB(i) ==> W(m, o + CHILD0) != HeadOf(n))
      && (slot == TB(i) <==> W(m, TB(i)) == HeadOf(n))
  {
    hide W, NodeRep, TreeIndex, TrieOk, BinBase, BinWidth, BnOk;
    TreeApart(m, b, i);
    AtNode(m, b, i, x);
    var t := b.trees[i];
    HeadInElems(m, W(m, TB(i)), TB(i), i, t);
    SlotIsRoot(m, i, t, x);
    if x !in t.ring {
      SlotOfInside(m, W(m, TB(i)), TB(i), i, t, x, TB(i));
      HeadElsewhere(t, x);
    }
  }

  lemma {:induction false} HeadElsewhere(t: Trie, x: int)
    requires x in Elems(t) && x !in t.ring && NoRepeats(t)
    ensures forall p :: p in t.ring ==> p !in SubAt(t, x).ring
  {
    if x in Elems(t.left) {
      SubAtElems(t.left, x);
    } else {
      SubAtElems(t.right, x);
    }
    assert RingSet(SubAt(t, x).ring) <= Elems(SubAt(t, x));
    assert forall p :: p in SubAt(t, x).ring ==> p in RingSet(SubAt(t, x).ring);
  }

  /** Case 1: x is chained behind the tree chunk of its size. */
  lemma RemoveChained(m: Mem, m': Mem, b: BinState, i: int, x: int)
    requires TreeBinAt(m, b, i) && BnOk(b.bn) && x in Elems(b.trees[i]) && x != HeadOf(Here(b, i, x))
    requires OutWrites(m, m', W(m, x + FD), W(m, x + BK))
    ensures TreeBinAt(m', RemovedLarge(b, i, x), i)
  {
    hide W, NodeRep, TreeIndex, TrieOk, BinBase, BinWidth, Apart, BnOk, OutWrites, NextOf, PrevOf, Spaced, LinkedOut,
      TreeBin, SameBut;
    var n := Here(b, i, x);
    var k := IndexOf(n.ring, x);
    AtNode(m, b, i, x);
    SlotPlaceOf(m, b, i, x);
    NodeOfTree(m, HeadOf(n), Above(b, i, x), i, n);
    LinksAt(m, Above(b, i, x), i, n.ring, k);
    RingWithin(Elems(b.trees[i]), n.ring);
    OutLinks(m, m', n.ring, k);
    OutFrame(m, m', n.ring, k, Elems(b.trees[i]));
    assert forall q :: q in n.ring ==> q in RingSet(n.ring);
    OutKeepsRest(m, m', b, i, x, k);
    OtherParts(m, m', n, Elems(b.trees[i]));
    UnchainRep(m, m', HeadOf(n), Above(b, i, x), i, n, k);
    FinishRemove(m, m', b, i, x, HeadOf(n));
  }

  lemma NodeOfTree(m: Mem, p: int, par: int, i: int, n: Trie)
    requires n.Node? && TreeRep(m, p, par, i, n)
    ensures NodeRep(m, n.ring, par, i)
  {
  }

  lemma OtherParts(m: Mem, m': Mem, n: Trie, e: set<int>)
    requires n.Node? && NoRepeats(n) && Elems(n) <= e
    requires forall q :: q in e && q !in n.ring ==> SameNode(m, m', q) && SameKids(m, m', q)
    ensures SameOn(m, m', Elems(n.left)) && SameOn(m, m', Elems(n.right)) && SameOn(m, m', e - Elems(n))
  {
    hide W, SameNode, SameKids;
  }

  lemma OutKeepsRest(m: Mem, m': Mem, b: BinState, i: int, x: int, k: int)
    requires TreeBinAt(m, b, i) && BnOk(b.bn) && x in Elems(b.trees[i])
    requires var n := Here(b, i, x); 0 <= k < |n.ring| && OutWrites(m, m', NextOf(n.ring, k), PrevOf(n.ring, k))
    ensures RestKept(m, m', b, i, x, HeadOf(Here(b, i, x)))
  {
    hide W, NodeRep, TreeIndex, TrieOk, BinBase, BinWidth, Apart, BnOk, OutWrites, NextOf, PrevOf, TreeBin;
    var n := Here(b, i, x);
    AtNode(m, b, i, x);
    SlotPlaceOf(m, b, i, x);
    assert forall q :: q in n.ring ==> q in RingSet(n.ring);
    OutFrame(m, m', n.ring, k, Elems(b.trees[i]));
    OutStatic(m, m', n.ring, k, TB(i));
  }

  /** Outside the node's subtree, tail writes reach the slot only. */
  lemma TailRest(m: Mem, m': Mem, x: int, r: int, xp: int, slot: int, all: set<int>, n: set<int>)
    requires TailWrites(m, m', x, r, xp, slot) && Apart(all) && n <= all
    requires r != 0 ==> r in n
    requires var c0, c1 := W(m, x + CHILD0), W(m, x + CHILD1); (c0 != 0 ==> c0 in n) && (c1 != 0 ==> c1 in n)
    requires slot < GM_END || exists o :: o in all && (slot == o + CHILD0 || slot == o + CHILD1)
    requires forall p :: p in all ==> p >= GM_END
    ensures SameBut(m, m', all - n, slot)
    ensures forall a :: a < GM_END && a != slot ==> W(m', a) == W(m, a)
  {
    hide W;
  }

  lemma ApartSub(e: set<int>, e': set<int>)
    requires Apart(e) && e' <= e
    ensures Apart(e')
  {
  }

  lemma SameThenBut(m: Mem, m1: Mem, m2: Mem, e: set<int>, slot: int)
    requires SameOn(m, m1, e) && SameBut(m1, m2, e, slot)
    ensures SameBut(m, m2, e, slot)
  {
    hide W;
  }

  /** The ring without its head, when the head was x: distinct, led by the old last member. */
  lemma RotatedWithout(ring: seq<int>)
    requires |ring| > 1 && Distinct(ring)
    ensures var s := Rotated(Without(ring, 0));
      && s != [] && Distinct(s) && s[0] == PrevOf(ring, 0) && PrevOf(ring, 0) in ring && PrevOf(ring, 0) != ring[0]
      && forall p :: p in s <==> p in ring && p != ring[0]
  {
    WithoutSet(ring, 0);
    RotatedSet(Without(ring, 0));
  }

  lemma LastIsChained(m: Mem, par: int, i: int, ring: seq<int>)
    requires NodeRep(m, ring, par, i) && |ring| > 1 && forall q :: q in ring ==> q >= GM_END
    ensures ChainedRep(m, PrevOf(ring, 0)) && PrevOf(ring, 0) != 0
  {
    hide W, RingRep;
    assert PrevOf(ring, 0) in ring;
  }

  /** Case 2, first half: the head x has been unlinked from a ring of several. */
  lemma UnheadedAt(m: Mem, m1: Mem, b: BinState, i: int, x: int)
    requires TreeBinAt(m, b, i) && BnOk(b.bn) && x in Elems(b.trees[i])
    requires var n := Here(b, i, x);
      x == HeadOf(n) && |n.ring| > 1 && OutWrites(m, m1, NextOf(n.ring, 0), PrevOf(n.ring, 0))
    ensures var n := Here(b, i, x); var s := Rotated(Without(n.ring, 0));
      && FreeRing(m1, s, i) && s[0] == PrevOf(n.ring, 0)
      && TreeRep(m1, W(m1, x + CHILD0), x, i, n.left) && TreeRep(m1, W(m1, x + CHILD1), x, i, n.right)
      && SameOn(m, m1, Elems(b.trees[i]) - Elems(n)) && W(m1, TB(i)) == W(m, TB(i))
  {
    hide W, NodeRep, TreeIndex, TrieOk, BinBase, BinWidth, Apart, BnOk, OutWrites, NextOf, PrevOf, Spaced, LinkedOut,
      TreeBin, Rotated, Without, SameOn;
    var n := Here(b, i, x);
    var all := Elems(b.trees[i]);
    AtNode(m, b, i, x);
    NodeOfTree(m, x, Above(b, i, x), i, n);
    RingWithin(all, n.ring);
    OutLinks(m, m1, n.ring, 0);
    OutFrame(m, m1, n.ring, 0, all);
    RotatedWithout(n.ring);
    assert forall q :: q in n.ring ==> q in RingSet(n.ring);
    LastIsChained(m, Above(b, i, x), i, n.ring);
    var r := PrevOf(n.ring, 0);
    UnheadRep(m, m1, Above(b, i, x), W(m1, r + PARENT), i, n.ring);
    OutStatic(m, m1, n.ring, 0, TB(i));
    OtherParts(m, m1, n, all);
    TreeFrame(m, m1, W(m, x + CHILD0), x, i, n.left);
    TreeFrame(m, m1, W(m, x + CHILD1), x, i, n.right);
  }

  /** Case 2: x heads a ring of several; its bk neighbour takes its place. */
  lemma RemoveHead(m: Mem, m1: Mem, m2: Mem, b: BinState, i: int, x: int)
    requires TreeBinAt(m, b, i) && BnOk(b.bn) && x in Elems(b.trees[i])
    requires var n := Here(b, i, x); x == HeadOf(n) && |n.ring| > 1
    requires OutWrites(m, m1, W(m, x + FD), W(m, x + BK))
    requires TailWrites(m1, m2, x, W(m, x + BK), Above(b, i, x), SlotHere(b, i, x))
    ensures TreeBinAt(m2, RemovedLarge(b, i, x), i)
  {
    hide W, NodeRep, TreeRep, TreeIndex, TrieOk, BinBase, BinWidth, Apart, BnOk, OutWrites, NextOf, PrevOf, TailWrites,
      FreeRing, TreeBin, NotLink;
    var n := Here(b, i, x);
    AtNode(m, b, i, x);
    NodeOfTree(m, x, Above(b, i, x), i, n);
    LinksAt(m, Above(b, i, x), i, n.ring, 0);
    SlotPlaceOf(m, b, i, x);
    UnheadedAt(m, m1, b, i, x);
    RotatedWithout(n.ring);
    ApartSub(Elems(b.trees[i]), Elems(n));
    ChildHeads(m1, x, i, n.left, n.right);
    assert forall q :: q in n.ring ==> q in RingSet(n.ring);
    TailRep(m1, m2, i, x, Above(b, i, x), SlotHere(b, i, x), Rotated(Without(n.ring, 0)), n.size, n.left,
            n.right, Elems(n));
    TailKeepsRest(m, m1, m2, b, i, x, W(m, x + BK));
    FinishRemove(m, m2, b, i, x, W(m, x + BK));
  }

  lemma TailKeepsRest(m: Mem, m1: Mem, m2: Mem, b: BinState, i: int, x: int, r: int)
    requires TreeBinAt(m, b, i) && BnOk(b.bn) && x in Elems(b.trees[i])
    requires SameOn(m, m1, Elems(b.trees[i]) - Elems(Here(b, i, x))) && W(m1, TB(i)) == W(m, TB(i))
    requires TailWrites(m1, m2, x, r, Above(b, i, x), SlotHere(b, i, x)) && (r != 0 ==> r in Elems(Here(b, i, x)))
    requires var c0, c1 := W(m1, x + CHILD0), W(m1, x + CHILD1); var n := Here(b, i, x);
      (c0 != 0 ==> c0 in Elems(n)) && (c1 != 0 ==> c1 in Elems(n))
    ensures RestKept(m, m2, b, i, x, r)
  {
    hide W, NodeRep, TreeRep, TreeIndex, TrieOk, BinBase, BinWidth, Apart, BnOk, TreeBin, NotLink, SameOn, SameBut;
    var n := Here(b, i, x);
    var all := Elems(b.trees[i]);
    AtNode(m, b, i, x);
    SlotPlaceOf(m, b, i, x);
    TailRest(m1, m2, x, r, Above(b, i, x), SlotHere(b, i, x), all, Elems(n));
    SameThenBut(m, m1, m2, all - Elems(n), SlotHere(b, i, x));
  }

  /** Case 3: x is alone in its ring and a leaf. */
  lemma RemoveLeaf(m: Mem, m2: Mem, b: BinState, i: int, x: int)
    requires TreeBinAt(m, b, i) && BnOk(b.bn) && x in Elems(b.trees[i])
    requires var n := Here(b, i, x); n.ring == [x] && n.left.Nil? && n.right.Nil?
    requires TailWrites(m, m2, x, 0, Above(b, i, x), SlotHere(b, i, x))
    ensures TreeBinAt(m2, RemovedLarge(b, i, x), i)
  {
    hide W, NodeRep, TreeIndex, TrieOk, BinBase, BinWidth, Apart, BnOk, TreeBin, TailWrites;
    AtNode(m, b, i, x);
    TailKeepsRest(m, m, m2, b, i, x, 0);
    FinishRemove(m, m2, b, i, x, 0);
  }

  // Case 4: x is alone in its ring, and the last leaf below it takes its place

  lemma {:induction false} DropLeafElems(m: Mem, p: int, par: int, i: int, t: Trie)
    requires t.Node? && NoRepeats(t) && TreeRep(m, p, par, i, t)
    ensures RingSet(LastLeaf(t).ring) <= Elems(t) && Distinct(LastLeaf(t).ring)
    ensures Elems(DropLeaf(t)) == Elems(t) - RingSet(LastLeaf(t).ring) && NoRepeats(DropLeaf(t))
    decreases t
  {
    hide W, NodeRep, Distinct;
    if t.right.Node? {
      DropLeafElems(m, W(m, p + CHILD1), p, i, t.right);
      RightWithout(t, DropLeaf(t.right), RingSet(LastLeaf(t.right).ring));
    } else if t.left.Node? {
      DropLeafElems(m, W(m, p + CHILD0), p, i, t.left);
      LeftWithout(t, DropLeaf(t.left), RingSet(LastLeaf(t.left).ring));
    } else {
      assert DropLeaf(t) == Nil && Elems(t) == RingSet(t.ring);
    }
  }

  /** A node whose right subtree has lost the chunks in r. */
  lemma RightWithout(t: Trie, d: Trie, r: set<int>)
    requires t.Node? && NoRepeats(t) && r <= Elems(t.right) && Elems(d) == Elems(t.right) - r && NoRepeats(d)
    ensures Elems(t.(right := d)) == Elems(t) - r && NoRepeats(t.(right := d)) && r <= Elems(t)
  {
    hide Distinct;
    assert forall q :: q in Elems(d) <==> q in Elems(t.right) && q !in r;
    forall q ensures q in Elems(t.(right := d)) <==> q in Elems(t) - r {
      assert q in r ==> q in Elems(t.right);
    }
  }

  lemma LeftWithout(t: Trie, d: Trie, r: set<int>)
    requires t.Node? && NoRepeats(t) && r <= Elems(t.left) && Elems(d) == Elems(t.left) - r && NoRepeats(d)
    ensures Elems(t.(left := d)) == Elems(t) - r && NoRepeats(t.(left := d)) && r <= Elems(t)
  {
    hide Distinct;
    assert forall q :: q in Elems(d) <==> q in Elems(t.left) && q !in r;
    forall q ensures q in Elems(t.(left := d)) <==> q in Elems(t) - r {
      assert q in r ==> q in Elems(t.left);
    }
  }

  /** The child of x that is searched for the last leaf, and the offset of the word that leads to it. */
  function DownChild(n: Trie): Trie
    requires n.Node?
  {
    if n.right.Node? then n.right else n.left
  }

  function DownOffset(n: Trie): int
    requires n.Node?
  {
    if n.right.Node? then CHILD1 else CHILD0
  }

  /** *RP = 0. */
  ghost predicate ZeroedAt(m: Mem, m1: Mem, a: int) {
    W(m1, a) == 0 && forall c :: c != a ==> W(m1, c) == W(m, c)
  }

  /** Where the last leaf hangs. */
  lemma LeafSlotPlace(m: Mem, x: int, off: int, i: int, c: Trie)
    requires c.Node? && TreeRep(m, W(m, x + off), x, i, c) && NoRepeats(c)
    ensures var slot := LeafSlot(c, x + off); var q := HeadOf(LastLeaf(c));
      && q in Elems(c) && SubAt(c, q) == LastLeaf(c) && PutAt(c, q, Nil) == DropLeaf(c) && SlotOf(c, q, x + off) == slot
      && LastLeaf(c).left.Nil? && LastLeaf(c).right.Nil? && NoRepeats(LastLeaf(c))
      && RingSet(LastLeaf(c).ring) <= Elems(c)
      && TreeRep(m, q, ParOf(c, q, x), i, LastLeaf(c))
      && (q in c.ring ==> slot == x + off && ParOf(c, q, x) == x)
      && (q in c.ring || (ParOf(c, q, x) in Elems(c) && ParOf(c, q, x) !in LastLeaf(c).ring))
      && (q in c.ring || slot == ParOf(c, q, x) + CHILD0 || slot == ParOf(c, q, x) + CHILD1)
  {
    hide W, NodeRep;
    var q := HeadOf(LastLeaf(c));
    var p := W(m, x + off);
    DropLeafIsPutAt(m, p, x, i, c, x + off);
    LastLeafIn(m, p, x, i, c);
    DropLeafElems(m, p, x, i, c);
    SubAtRep(m, p, x, i, c, q);
    if q !in c.ring {
      SlotOfInside(m, p, x, i, c, q, x + off);
    }
  }

  /** The last leaf has been cut off below child c of x. */
  lemma CutLeaf(m: Mem, m1: Mem, x: int, off: int, i: int, c: Trie, all: set<int>)
    requires c.Node? && TreeRep(m, W(m, x + off), x, i, c) && NoRepeats(c) && (off == CHILD0 || off == CHILD1)
    requires Apart(all) && Elems(c) <= all && x in all && x !in Elems(c)
    requires ZeroedAt(m, m1, LeafSlot(c, x + off))
    ensures TreeRep(m1, W(m1, x + off), x, i, DropLeaf(c))
    ensures FreeRing(m1, LastLeaf(c).ring, i)
  {
    hide W, NodeRep, Apart, ZeroedAt, FreeRing, SameBut;
    var q := HeadOf(LastLeaf(c));
    var slot := LeafSlot(c, x + off);
    LeafSlotPlace(m, x, off, i, c);
    ApartSub(all, Elems(c));
    ChildWordsDiffer(all, x, Elems(c), off);
    CutSame(m, m1, x, off, slot, Elems(c), all);
    SameButSub(m, m1, Elems(c), Elems(c) - Elems(LastLeaf(c)), slot);
    PutAtRep(m, m1, W(m, x + off), x, i, c, q, Nil, 0, x + off);
    CutLeafRing(m, m1, slot, i, LastLeaf(c), ParOf(c, q, x), all);
  }

  lemma SameButSub(m: Mem, m': Mem, e: set<int>, e': set<int>, c: int)
    requires SameBut(m, m', e, c) && e' <= e
    ensures SameBut(m, m', e', c)
  {
    hide W;
  }

  lemma ChildWordsDiffer(all: set<int>, x: int, e: set<int>, off: int)
    requires Apart(all) && e <= all && x in all && x !in e && (off == CHILD0 || off == CHILD1)
    ensures forall o :: o in e ==> x + off != o + CHILD0 && x + off != o + CHILD1
  {
  }

  lemma CutSame(m: Mem, m1: Mem, x: int, off: int, slot: int, e: set<int>, all: set<int>)
    requires ZeroedAt(m, m1, slot) && Apart(all) && e <= all && x in all && x !in e && (off == CHILD0 || off == CHILD1)
    requires slot == x + off || exists o :: o in e && (slot == o + CHILD0 || slot == o + CHILD1)
    ensures SameBut(m, m1, e, slot)
    ensures W(m1, slot) == 0
    ensures slot != x + off ==> W(m1, x + off) == W(m, x + off)
  {
    hide W;
  }

  lemma CutLeafRing(m: Mem, m1: Mem, slot: int, i: int, leaf: Trie, par: int, all: set<int>)
    requires leaf.Node? && leaf.left.Nil? && leaf.right.Nil? && TreeRep(m, HeadOf(leaf), par, i, leaf)
    requires NoRepeats(leaf)
    requires ZeroedAt(m, m1, slot) && Apart(all) && RingSet(leaf.ring) <= all
    requires par in all && par !in leaf.ring && (slot == par + CHILD0 || slot == par + CHILD1)
    ensures FreeRing(m1, leaf.ring, i)
  {
    hide W, NextOf, PrevOf;
    var ring := leaf.ring;
    HeadInElems(m, HeadOf(leaf), par, i, leaf);
    forall q | q in ring
      ensures SameNode(m, m1, q) && SameKids(m, m1, q)
    {
      assert q in RingSet(ring);
    }
    NodeFrame(m, m1, ring, par, i);
  }

  /** What is left of x's subtrees once the last leaf is cut off. */
  function LeftAfterCut(n: Trie): Trie
    requires n.Node?
  {
    if n.right.Node? then n.left else if n.left.Node? then DropLeaf(n.left) else Nil
  }

  function RightAfterCut(n: Trie): Trie
    requires n.Node?
  {
    if n.right.Node? then DropLeaf(n.right) else Nil
  }

  lemma CutAtNode(m: Mem, m1: Mem, i: int, x: int, par: int, n: Trie, all: set<int>)
    requires n.Node? && n.ring == [x] && DownChild(n).Node? && TreeRep(m, x, par, i, n) && NoRepeats(n)
    requires Apart(all) && Elems(n) <= all && ZeroedAt(m, m1, LeafSlot(DownChild(n), x + DownOffset(n)))
    ensures var c := DownChild(n);
      && FreeRing(m1, LastLeaf(c).ring, i)
      && TreeRep(m1, W(m1, x + CHILD0), x, i, LeftAfterCut(n)) && TreeRep(m1, W(m1, x + CHILD1), x, i, RightAfterCut(n))
  {
    hide W, NodeRep, Apart, ZeroedAt, FreeRing, TreeRep;
    Below(m, x, par, i, n, x);
    var c := DownChild(n);
    var off := DownOffset(n);
    var d := if n.right.Node? then n.left else n.right;
    var off' := if n.right.Node? then CHILD0 else CHILD1;
    HeadInElems(m, x, par, i, n);
    CutLeaf(m, m1, x, off, i, c, all);
    LeafSlotPlace(m, x, off, i, c);
    CutElsewhere(m, m1, x, off', LeafSlot(c, x + off), Elems(c), Elems(d), all, off);
    TreeFrame(m, m1, W(m, x + off'), x, i, d);
  }

  lemma CutElsewhere(m: Mem, m1: Mem, x: int, off': int, slot: int, e: set<int>, d: set<int>, all: set<int>, off: int)
    requires ZeroedAt(m, m1, slot) && Apart(all) && e <= all && d <= all && x in all && x !in d && x !in e
    requires forall p :: p in e ==> p !in d
    requires (off == CHILD0 && off' == CHILD1) || (off == CHILD1 && off' == CHILD0)
    requires slot == x + off || exists o :: o in e && (slot == o + CHILD0 || slot == o + CHILD1)
    ensures SameOn(m, m1, d) && W(m1, x + off') == W(m, x + off')
  {
    hide W;
  }

  lemma RemoveHereByLeaf(n: Trie, x: int)
    requires n.Node? && n.ring == [x] && DownChild(n).Node?
    ensures var f := LastLeaf(DownChild(n)); RemoveHere(n, x) == Node(f.ring, f.size, LeftAfterCut(n), RightAfterCut(n))
  {
  }

  /** What is cut off and what is left are separate parts of the subtree. */
  lemma CutParts(m: Mem, i: int, x: int, par: int, n: Trie)
    requires n.Node? && n.ring == [x] && DownChild(n).Node? && TreeRep(m, x, par, i, n) && NoRepeats(n)
    ensures var f := LastLeaf(DownChild(n));
      && DisjointParts(f.ring, LeftAfterCut(n), RightAfterCut(n))
      && NoRepeats(LeftAfterCut(n)) && NoRepeats(RightAfterCut(n))
      && RingSet(f.ring) <= Elems(n) && Elems(LeftAfterCut(n)) <= Elems(n) && Elems(RightAfterCut(n)) <= Elems(n)
  {
    hide W, NodeRep;
    var c := DownChild(n);
    DropLeafElems(m, W(m, x + DownOffset(n)), x, i, c);
    assert forall q :: q in LastLeaf(c).ring ==> q in RingSet(LastLeaf(c).ring);
  }

  lemma RemoveInner(m: Mem, m1: Mem, m2: Mem, b: BinState, i: int, x: int)
    requires TreeBinAt(m, b, i) && BnOk(b.bn) && x in Elems(b.trees[i])
    requires var n := Here(b, i, x);
      && n.ring == [x] && DownChild(n).Node?
      && ZeroedAt(m, m1, LeafSlot(DownChild(n), x + DownOffset(n)))
      && TailWrites(m1, m2, x, HeadOf(LastLeaf(DownChild(n))), Above(b, i, x), SlotHere(b, i, x))
    ensures TreeBinAt(m2, RemovedLarge(b, i, x), i)
  {
    hide W, NodeRep, TreeRep, TreeIndex, TrieOk, BinBase, BinWidth, Apart, BnOk, TailWrites, FreeRing, TreeBin, NotLink,
      ZeroedAt, DisjointParts;
    var n := Here(b, i, x);
    var f := LastLeaf(DownChild(n));
    var par := Above(b, i, x);
    AtNode(m, b, i, x);
    SlotPlaceOf(m, b, i, x);
    ApartSub(Elems(b.trees[i]), Elems(n));
    CutAtNode(m, m1, i, x, par, n, Elems(n));
    CutParts(m, i, x, par, n);
    ChildHeads(m1, x, i, LeftAfterCut(n), RightAfterCut(n));
    FreeRingHead(m1, f.ring, i);
    TailRep(m1, m2, i, x, par, SlotHere(b, i, x), f.ring, f.size, LeftAfterCut(n), RightAfterCut(n), Elems(n));
    CutKeepsRest(m, m1, b, i, x);
    TailKeepsRest(m, m1, m2, b, i, x, HeadOf(f));
    RemoveHereByLeaf(n, x);
    FinishRemove(m, m2, b, i, x, HeadOf(f));
  }

  lemma FreeRingHead(m: Mem, ring: seq<int>, i: int)
    requires FreeRing(m, ring, i)
    ensures ring != [] && ring[0] in RingSet(ring)
  {
  }

  lemma CutKeepsRest(m: Mem, m1: Mem, b: BinState, i: int, x: int)
    requires TreeBinAt(m, b, i) && BnOk(b.bn) && x in Elems(b.trees[i])
    requires var n := Here(b, i, x);
      n.ring == [x] && DownChild(n).Node? && ZeroedAt(m, m1, LeafSlot(DownChild(n), x + DownOffset(n)))
    ensures SameOn(m, m1, Elems(b.trees[i]) - Elems(Here(b, i, x))) && W(m1, TB(i)) == W(m, TB(i))
  {
    hide W, NodeRep, TreeIndex, TrieOk, BinBase, BinWidth, Apart, BnOk, TreeBin, ZeroedAt;
    var n := Here(b, i, x);
    AtNode(m, b, i, x);
    LeafSlotPlace(m, x, DownOffset(n), i, DownChild(n));
    CutOutside(m, m1, LeafSlot(DownChild(n), x + DownOffset(n)), Elems(n), Elems(b.trees[i]), i);
  }

  lemma CutOutside(m: Mem, m1: Mem, slot: int, e: set<int>, all: set<int>, i: int)
    requires ZeroedAt(m, m1, slot) && Apart(all) && e <= all && 0 <= i < 32 && forall p :: p in all ==> p >= GM_END
    requires exists o :: o in e && (slot == o + CHILD0 || slot == o + CHILD1)
    ensures SameOn(m, m1, all - e) && W(m1, TB(i)) == W(m, TB(i))
  {
    hide W;
  }

  // All writes stay within the bin's root word and the link areas of the tree's chunks

  lemma KeptTrans(m: Mem, m1: Mem, m2: Mem, all: map<int, int>, e: set<int>, lo: int, hi: int)
    requires KeptOutside(m, m1, all, e, lo, hi) && KeptOutside(m1, m2, all, e, lo, hi)
    ensures KeptOutside(m, m2, all, e, lo, hi)
  {
    hide W;
  }

  ghost predicate LargeIn(bn: map<int, int>, e: set<int>) {
    forall p :: p in e ==> p in bn && bn[p] >= TCHUNK_SIZE
  }

  lemma OutKept(m: Mem, m1: Mem, f: int, k: int, bn: map<int, int>, e: set<int>, lo: int, hi: int)
    requires OutWrites(m, m1, f, k) && f in e && k in e && LargeIn(bn, e)
    ensures KeptOutside(m, m1, bn, e, lo, hi)
  {
    hide W;
  }

  lemma ZeroKept(m: Mem, m1: Mem, slot: int, o: int, bn: map<int, int>, e: set<int>, lo: int, hi: int)
    requires ZeroedAt(m, m1, slot) && o in e && (slot == o + CHILD0 || slot == o + CHILD1) && LargeIn(bn, e)
    ensures KeptOutside(m, m1, bn, e, lo, hi)
  {
    hide W;
  }

  lemma TailKept(m: Mem, m': Mem, x: int, r: int, xp: int, slot: int, o: int, bn: map<int, int>, e: set<int>, lo: int,
                 hi: int)
    requires TailWrites(m, m', x, r, xp, slot) && LargeIn(bn, e)
    requires lo <= slot < hi || (o in e && (slot == o + CHILD0 || slot == o + CHILD1))
    requires r != 0 ==> r in e
    requires var c0, c1 := W(m, x + CHILD0), W(m, x + CHILD1); (c0 != 0 ==> c0 in e) && (c1 != 0 ==> c1 in e)
    ensures KeptOutside(m, m', bn, e, lo, hi)
  {
    hide W;
  }
}
