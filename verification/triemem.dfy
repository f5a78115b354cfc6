/** How a trie lies in memory: child, parent and ring words of the chunks it holds. */
module TrieMem {
  import opened Rings
  import opened Tries
  import opened Words

  /** A chunk that shares its size with a tree node but is not the one linked into the tree. */
  ghost predicate ChainedRep(m: Mem, q: int) {
    W(m, q + PARENT) == 0 && W(m, q + CHILD0) == 0 && W(m, q + CHILD1) == 0
  }

  ghost predicate NodeRep(m: Mem, ring: seq<int>, par: int, idx: int) {
    && ring != [] && ring[0] != 0
    && RingRep(m, ring)
    && W(m, ring[0] + PARENT) == par
    && (forall k :: 1 <= k < |ring| ==> ChainedRep(m, ring[k]))
    && (forall k :: 0 <= k < |ring| ==> W(m, ring[k] + INDEX) == idx)
  }

  /** The words reached from p hold exactly tree t, whose root's parent word is par. */
  ghost predicate TreeRep(m: Mem, p: int, par: int, idx: int, t: Trie)
    decreases t
  {
    match t
    case Nil => p == 0
    case Node(ring, _, l, r) =>
      && NodeRep(m, ring, par, idx)
      && p == ring[0]
      && TreeRep(m, W(m, p + CHILD0), p, idx, l)
      && TreeRep(m, W(m, p + CHILD1), p, idx, r)
  }

  /** Tree chunks are at least TCHUNK_SIZE apart, so their link words never overlap. */
  ghost predicate Apart(s: set<int>) {
    forall p, q :: p in s && q in s && p != q ==> p + TCHUNK_SIZE <= q || q + TCHUNK_SIZE <= p
  }

  ghost predicate ApartFrom(s: set<int>, x: int) {
    forall p :: p in s ==> p + TCHUNK_SIZE <= x || x + TCHUNK_SIZE <= p
  }

  /** The ring, parent and index words of q are unchanged. */
  ghost predicate SameNode(m: Mem, m': Mem, q: int) {
    && W(m', q + FD) == W(m, q + FD) && W(m', q + BK) == W(m, q + BK)
    && W(m', q + PARENT) == W(m, q + PARENT) && W(m', q + INDEX) == W(m, q + INDEX)
  }

  ghost predicate SameKids(m: Mem, m': Mem, q: int) {
    W(m', q + CHILD0) == W(m, q + CHILD0) && W(m', q + CHILD1) == W(m, q + CHILD1)
  }

  ghost predicate SameOn(m: Mem, m': Mem, s: set<int>) {
    forall q :: q in s ==> SameNode(m, m', q) && SameKids(m, m', q)
  }

  lemma NodeFrame(m: Mem, m': Mem, ring: seq<int>, par: int, idx: int)
    requires NodeRep(m, ring, par, idx)
    requires forall q :: q in ring ==> SameNode(m, m', q)
    requires forall q :: q in ring && q != ring[0] ==> SameKids(m, m', q)
    requires Distinct(ring)
    ensures NodeRep(m', ring, par, idx)
  {
    hide W, NextOf, PrevOf;
    forall k | 0 <= k < |ring|
      ensures SameNode(m, m', ring[k]) && (k > 0 ==> SameKids(m, m', ring[k]))
    {
      assert ring[k] in ring;
    }
    RingFrame(m, m', ring);
  }

  /** A tree is untouched by writes elsewhere. */
  lemma {:induction false} TreeFrame(m: Mem, m': Mem, p: int, par: int, idx: int, t: Trie)
    requires TreeRep(m, p, par, idx, t) && SameOn(m, m', Elems(t)) && NoRepeats(t)
    ensures TreeRep(m', p, par, idx, t)
    decreases t
  {
    hide W, NextOf, PrevOf;
    match t
    case Nil =>
    case Node(ring, _, l, r) =>
      assert forall q :: q in ring ==> q in Elems(t);
      NodeFrame(m, m', ring, par, idx);
      assert ring[0] in ring;
      TreeFrame(m, m', W(m, p + CHILD0), p, idx, l);
      TreeFrame(m, m', W(m, p + CHILD1), p, idx, r);
  }

  /** Every chunk occurs in one place of the tree only. */
  ghost predicate NoRepeats(t: Trie) {
    t.Node? ==>
      && Distinct(t.ring)
      && (forall p :: p in t.ring ==> p !in Elems(t.left) && p !in Elems(t.right))
      && (forall p :: p in Elems(t.left) ==> p !in Elems(t.right))
      && NoRepeats(t.left) && NoRepeats(t.right)
  }

  lemma {:induction false} TrieOkNoRepeats(t: Trie, lo: int, w: int, bn: map<int, int>)
    requires w > 0 && TrieOk(t, lo, w, bn)
    ensures NoRepeats(t)
    decreases t
  {
    if t.Node? {
      PartsDisjoint(t, lo, w, bn);
      if w / 2 == 0 {
        NarrowIsNil(t.left, lo, bn);
        NarrowIsNil(t.right, lo, bn);
      } else {
        TrieOkNoRepeats(t.left, lo, w / 2, bn);
        TrieOkNoRepeats(t.right, lo + w / 2, w / 2, bn);
      }
    }
  }

  // Insertion: where the loop of insert_large_chunk ends up

  /** The head of the tree, or 0. */
  function HeadOf(t: Trie): int {
    if t.Node? && t.ring != [] then t.ring[0] else 0
  }

  /** The node of size s met on the way down, if any. */
  function SameSizeNode(t: Trie, s: int, lo: int, w: int): Trie
    decreases t
  {
    if t.Nil? || t.size == s then t
    else if s < lo + w / 2 then SameSizeNode(t.left, s, lo, w / 2)
    else SameSizeNode(t.right, s, lo + w / 2, w / 2)
  }

  /** The empty child slot where the way down ends, when no node of size s is met; c is the slot t hangs from. */
  function InsertSlot(t: Trie, s: int, lo: int, w: int, c: int): int
    decreases t
  {
    if t.Nil? || t.size == s then c
    else if s < lo + w / 2 then InsertSlot(t.left, s, lo, w / 2, HeadOf(t) + CHILD0)
    else InsertSlot(t.right, s, lo + w / 2, w / 2, HeadOf(t) + CHILD1)
  }

  /** The chunk that slot belongs to. */
  function InsertParent(t: Trie, s: int, lo: int, w: int, par: int): int
    decreases t
  {
    if t.Nil? || t.size == s then par
    else if s < lo + w / 2 then InsertParent(t.left, s, lo, w / 2, HeadOf(t))
    else InsertParent(t.right, s, lo + w / 2, w / 2, HeadOf(t))
  }

  /** Below a nonempty tree the slot is a child word of one of its chunks. */
  lemma {:induction false} InsertSlotInside(m: Mem, p: int, par: int, idx: int, t: Trie, s: int, lo: int, w: int,
                                            c: int)
    requires t.Node? && TreeRep(m, p, par, idx, t) && SameSizeNode(t, s, lo, w).Nil?
    ensures InsertParent(t, s, lo, w, par) in Elems(t)
    ensures InsertSlot(t, s, lo, w, c) == InsertParent(t, s, lo, w, par) + CHILD0
         || InsertSlot(t, s, lo, w, c) == InsertParent(t, s, lo, w, par) + CHILD1
    decreases t
  {
    hide W, NextOf, PrevOf;
    assert p in t.ring;
    if s < lo + w / 2 {
      if t.left.Node? {
        InsertSlotInside(m, W(m, p + CHILD0), p, idx, t.left, s, lo, w / 2, p + CHILD0);
      }
    } else {
      if t.right.Node? {
        InsertSlotInside(m, W(m, p + CHILD1), p, idx, t.right, s, lo + w / 2, w / 2, p + CHILD1);
      }
    }
  }

  /** Chunk x has been set up as a new leaf below par. */
  ghost predicate FreshLeaf(m: Mem, x: int, par: int, idx: int) {
    && x != 0
    && W(m, x + FD) == x && W(m, x + BK) == x
    && W(m, x + CHILD0) == 0 && W(m, x + CHILD1) == 0
    && W(m, x + PARENT) == par && W(m, x + INDEX) == idx
  }

  lemma FreshLeafRep(m: Mem, x: int, par: int, idx: int, s: int)
    requires FreshLeaf(m, x, par, idx)
    ensures TreeRep(m, x, par, idx, Node([x], s, Nil, Nil))
  {
    hide W;
  }

  ghost predicate SameBut(m: Mem, m': Mem, s: set<int>, c: int) {
    forall q :: q in s ==>
      && SameNode(m, m', q)
      && (q + CHILD0 != c ==> W(m', q + CHILD0) == W(m, q + CHILD0))
      && (q + CHILD1 != c ==> W(m', q + CHILD1) == W(m, q + CHILD1))
  }

  /** A child slot of chunk o is no link word of any other chunk. */
  lemma SlotElsewhere(m: Mem, m': Mem, s: set<int>, e: set<int>, o: int, c: int)
    requires SameBut(m, m', s, c) && e <= s && Apart(s)
    requires o in s && o !in e && (c == o + CHILD0 || c == o + CHILD1)
    ensures SameOn(m, m', e)
  {
    hide W;
  }

  /** A write to a child slot of chunk o, at p or in the subtree on one side of p, keeps the node at p itself. */
  lemma NodeKept(m: Mem, m': Mem, p: int, par: int, idx: int, t: Trie, e: set<int>, o: int, c: int)
    requires t.Node? && TreeRep(m, p, par, idx, t) && NoRepeats(t) && Apart(e) && RingSet(t.ring) <= e
    requires SameBut(m, m', e, c) && o in e && (c == o + CHILD0 || c == o + CHILD1)
    requires o == p || o !in t.ring
    ensures NodeRep(m', t.ring, par, idx)
    ensures p + CHILD0 != c ==> W(m', p + CHILD0) == W(m, p + CHILD0)
    ensures p + CHILD1 != c ==> W(m', p + CHILD1) == W(m, p + CHILD1)
    ensures o != p ==> p + CHILD0 != c && p + CHILD1 != c
  {
    hide W, NextOf, PrevOf;
    HeadInElems(m, p, par, idx, t);
    SlotElsewhere(m, m', e, RingSet(t.ring) - {p}, o, c);
    NodeFrame(m, m', t.ring, par, idx);
  }

  /** ... and the subtree on the other side. */
  lemma SubtreeKept(m: Mem, m': Mem, p: int, par: int, idx: int, t: Trie, e: set<int>, o: int, c: int)
    requires TreeRep(m, p, par, idx, t) && NoRepeats(t) && Apart(e) && Elems(t) <= e
    requires SameBut(m, m', e, c) && o in e && o !in Elems(t) && (c == o + CHILD0 || c == o + CHILD1)
    ensures TreeRep(m', p, par, idx, t)
  {
    SlotElsewhere(m, m', e, Elems(t), o, c);
    TreeFrame(m, m', p, par, idx, t);
  }

  /** Writing a fresh leaf into the slot where the way down ends realises Insert. */
  lemma {:induction false} InsertLeafRep(m: Mem, m': Mem, p: int, par: int, idx: int, t: Trie,
                                         x: int, s: int, lo: int, w: int, c: int)
    requires TreeRep(m, p, par, idx, t) && SameSizeNode(t, s, lo, w).Nil? && NoRepeats(t)
    requires Apart(Elems(t))
    requires SameBut(m, m', Elems(t), InsertSlot(t, s, lo, w, c))
    requires FreshLeaf(m', x, InsertParent(t, s, lo, w, par), idx)
    requires W(m', InsertSlot(t, s, lo, w, c)) == x
    ensures TreeRep(m', if t.Nil? then x else p, par, idx, Insert(t, x, s, lo, w))
    decreases t
  {
    hide W, NodeRep, FreshLeaf, Apart, SameBut, TreeRep, NoRepeats, Elems, RingSet;
    if t.Nil? {
      FreshLeafRep(m', x, par, idx, s);
    } else {
      Below(m, p, par, idx, t, p);
      Subsets(m, m', t, InsertSlot(t, s, lo, w, c));
      var h := w / 2;
      var o := InsertParent(t, s, lo, w, par);
      var cc := InsertSlot(t, s, lo, w, c);
      InsertSlotInside(m, p, par, idx, t, s, lo, w, c);
      HeadInElems(m, p, par, idx, t);
      if s < lo + h {
        LeftOwner(m, p, par, idx, t, s, lo, w, c);
        NodeKept(m, m', p, par, idx, t, Elems(t), o, cc);
        InsertLeafRep(m, m', W(m, p + CHILD0), p, idx, t.left, x, s, lo, h, p + CHILD0);
        SubtreeKept(m, m', W(m, p + CHILD1), p, idx, t.right, Elems(t), o, cc);
      } else {
        RightOwner(m, p, par, idx, t, s, lo, w, c);
        NodeKept(m, m', p, par, idx, t, Elems(t), o, cc);
        InsertLeafRep(m, m', W(m, p + CHILD1), p, idx, t.right, x, s, lo + h, h, p + CHILD1);
        SubtreeKept(m, m', W(m, p + CHILD0), p, idx, t.left, Elems(t), o, cc);
      }
      NodeOf(m', p, par, idx, Insert(t, x, s, lo, w));
    }
  }

  lemma Subsets(m: Mem, m': Mem, t: Trie, c: int)
    requires t.Node? && Apart(Elems(t)) && SameBut(m, m', Elems(t), c)
    ensures Elems(t.left) <= Elems(t) && Apart(Elems(t.left)) && SameBut(m, m', Elems(t.left), c)
    ensures Elems(t.right) <= Elems(t) && Apart(Elems(t.right)) && SameBut(m, m', Elems(t.right), c)
  {
    hide W, SameNode;
  }

  lemma LeftOwner(m: Mem, p: int, par: int, idx: int, t: Trie, s: int, lo: int, w: int, c: int)
    requires t.Node? && TreeRep(m, p, par, idx, t) && NoRepeats(t)
    requires SameSizeNode(t, s, lo, w).Nil? && s < lo + w / 2
    ensures var o := InsertParent(t, s, lo, w, par);
      && (o == p || o !in t.ring) && o !in Elems(t.right)
      && (t.left.Nil? ==> o == p && InsertSlot(t, s, lo, w, c) == p + CHILD0)
      && (t.left.Node? ==> o != p && o in Elems(t.left))
  {
    hide W, NodeRep;
    HeadInElems(m, p, par, idx, t);
    if t.left.Node? {
      InsertSlotInside(m, W(m, p + CHILD0), p, idx, t.left, s, lo, w / 2, p + CHILD0);
    }
  }

  lemma RightOwner(m: Mem, p: int, par: int, idx: int, t: Trie, s: int, lo: int, w: int, c: int)
    requires t.Node? && TreeRep(m, p, par, idx, t) && NoRepeats(t)
    requires SameSizeNode(t, s, lo, w).Nil? && s >= lo + w / 2
    ensures var o := InsertParent(t, s, lo, w, par);
      && (o == p || o !in t.ring) && o !in Elems(t.left)
      && (t.right.Nil? ==> o == p && InsertSlot(t, s, lo, w, c) == p + CHILD1)
      && (t.right.Node? ==> o != p && o in Elems(t.right))
  {
    hide W, NodeRep;
    HeadInElems(m, p, par, idx, t);
    if t.right.Node? {
      InsertSlotInside(m, W(m, p + CHILD1), p, idx, t.right, s, lo + w / 2, w / 2, p + CHILD1);
    }
  }

  lemma HeadInElems(m: Mem, p: int, par: int, idx: int, t: Trie)
    requires t.Node? && TreeRep(m, p, par, idx, t)
    ensures p in t.ring && p in Elems(t) && p == t.ring[0] && p == HeadOf(t) && p != 0
    ensures RingSet(t.ring) <= Elems(t) && NodeRep(m, t.ring, par, idx)
  {
  }

  // Replacing the subtree that is rooted at the node of a given chunk

  function SubAt(t: Trie, x: int): (s: Trie)
    requires x in Elems(t)
    ensures s.Node? && x in s.ring
  {
    if x in t.ring then t else if x in Elems(t.left) then SubAt(t.left, x) else SubAt(t.right, x)
  }

  /** What a node in memory has below it. */
  lemma Below(m: Mem, p: int, par: int, idx: int, t: Trie, x: int)
    requires t.Node? && TreeRep(m, p, par, idx, t) && NoRepeats(t)
    ensures TreeRep(m, W(m, p + CHILD0), p, idx, t.left) && TreeRep(m, W(m, p + CHILD1), p, idx, t.right)
    ensures NoRepeats(t.left) && NoRepeats(t.right) && p !in Elems(t.left) && p !in Elems(t.right)
    ensures x in Elems(t) ==> x in t.ring || x in Elems(t.left) || x in Elems(t.right)
  {
    hide W, NodeRep, Distinct;
    HeadInElems(m, p, par, idx, t);
  }

  lemma HasNode(t: Trie, x: int)
    requires x in Elems(t)
    ensures t.Node?
  {
  }

  lemma NodeOf(m: Mem, p: int, par: int, idx: int, t: Trie)
    requires t.Node? && NodeRep(m, t.ring, par, idx) && t.ring != [] && p == t.ring[0]
    requires TreeRep(m, W(m, p + CHILD0), p, idx, t.left) && TreeRep(m, W(m, p + CHILD1), p, idx, t.right)
    ensures TreeRep(m, p, par, idx, t)
  {
    hide W, NodeRep;
  }

  function PutAt(t: Trie, x: int, s: Trie): Trie
    requires x in Elems(t)
  {
    if x in t.ring then s
    else if x in Elems(t.left) then t.(left := PutAt(t.left, x, s))
    else t.(right := PutAt(t.right, x, s))
  }

  /** The slot the node of x hangs from, when t hangs from c. */
  function SlotOf(t: Trie, x: int, c: int): int
    requires x in Elems(t)
  {
    if x in t.ring then c
    else if x in Elems(t.left) then SlotOf(t.left, x, HeadOf(t) + CHILD0)
    else SlotOf(t.right, x, HeadOf(t) + CHILD1)
  }

  function ParOf(t: Trie, x: int, par: int): int
    requires x in Elems(t)
  {
    if x in t.ring then par
    else if x in Elems(t.left) then ParOf(t.left, x, HeadOf(t))
    else ParOf(t.right, x, HeadOf(t))
  }

  lemma {:induction false} RemoveIsPutAt(t: Trie, x: int)
    requires x in Elems(t)
    ensures Remove(t, x) == PutAt(t, x, RemoveHere(SubAt(t, x), x))
    decreases t
  {
    if x in t.ring {
    } else if x in Elems(t.left) {
      RemoveIsPutAt(t.left, x);
    } else {
      RemoveIsPutAt(t.right, x);
    }
  }

  lemma {:induction false} SubAtElems(t: Trie, x: int)
    requires x in Elems(t)
    ensures Elems(SubAt(t, x)) <= Elems(t)
    decreases t
  {
    if x in t.ring {
    } else if x in Elems(t.left) {
      SubAtElems(t.left, x);
    } else {
      SubAtElems(t.right, x);
    }
  }

  /** What memory says about the node of x inside a tree. */
  lemma {:induction false} SubAtRep(m: Mem, p: int, par: int, idx: int, t: Trie, x: int)
    requires x in Elems(t) && TreeRep(m, p, par, idx, t) && NoRepeats(t)
    ensures NoRepeats(SubAt(t, x))
    ensures TreeRep(m, HeadOf(SubAt(t, x)), ParOf(t, x, par), idx, SubAt(t, x))
    decreases t
  {
    hide W, NodeRep;
    HeadInElems(m, p, par, idx, t);
    if x in t.ring {
    } else if x in Elems(t.left) {
      SubAtRep(m, W(m, p + CHILD0), p, idx, t.left, x);
    } else {
      SubAtRep(m, W(m, p + CHILD1), p, idx, t.right, x);
    }
  }

  /** The slot of an inner node is the child word of another chunk of the tree, which points to it. */
  lemma {:induction false} SlotOfInside(m: Mem, p: int, par: int, idx: int, t: Trie, x: int, c: int)
    requires x in Elems(t) && x !in t.ring && TreeRep(m, p, par, idx, t) && NoRepeats(t)
    ensures ParOf(t, x, par) in Elems(t) && ParOf(t, x, par) !in Elems(SubAt(t, x))
    ensures SlotOf(t, x, c) == ParOf(t, x, par) + CHILD0 || SlotOf(t, x, c) == ParOf(t, x, par) + CHILD1
    ensures W(m, SlotOf(t, x, c)) == HeadOf(SubAt(t, x))
    ensures SlotOf(t, x, c) == ParOf(t, x, par) + CHILD1 ==> W(m, ParOf(t, x, par) + CHILD0) != HeadOf(SubAt(t, x))
    decreases t
  {
    hide W, NodeRep, TreeRep, NoRepeats, Elems, RingSet;
    HasNode(t, x);
    Below(m, p, par, idx, t, x);
    HeadInElems(m, p, par, idx, t);
    var e := if x in Elems(t.left) then t.left else t.right;
    var off := if x in Elems(t.left) then CHILD0 else CHILD1;
    HasNode(e, x);
    SubAtElems(e, x);
    ChildElems(t);
    if x in e.ring {
      SlotStep(m, p, par, idx, t, x);
    } else {
      SlotOfInside(m, W(m, p + off), p, idx, e, x, p + off);
    }
  }

  lemma ChildElems(t: Trie)
    requires t.Node?
    ensures Elems(t.left) <= Elems(t) && Elems(t.right) <= Elems(t)
  {
  }

  /** The node of x is a child. */
  lemma SlotStep(m: Mem, p: int, par: int, idx: int, t: Trie, x: int)
    requires t.Node? && TreeRep(m, p, par, idx, t) && NoRepeats(t) && x in Elems(t) && x !in t.ring
    requires x in Elems(if x in Elems(t.left) then t.left else t.right)
    requires x in (if x in Elems(t.left) then t.left.ring else t.right.ring)
    ensures ParOf(t, x, par) == p && p !in Elems(SubAt(t, x))
    ensures var off := if x in Elems(t.left) then CHILD0 else CHILD1;
      SlotOf(t, x, p) == p + off && W(m, p + off) == HeadOf(SubAt(t, x))
    ensures x !in Elems(t.left) ==> W(m, p + CHILD0) != HeadOf(SubAt(t, x))
  {
    hide W, NodeRep;
    HeadInElems(m, p, par, idx, t);
    if x in Elems(t.left) {
      HeadInElems(m, W(m, p + CHILD0), p, idx, t.left);
    } else {
      HeadInElems(m, W(m, p + CHILD1), p, idx, t.right);
      if t.left.Node? { HeadInElems(m, W(m, p + CHILD0), p, idx, t.left); }
    }
  }

  /** Which part of t the parent of the node of x is in. */
  lemma ParOfSide(m: Mem, p: int, par: int, idx: int, t: Trie, x: int)
    requires x in Elems(t) && x !in t.ring && TreeRep(m, p, par, idx, t) && NoRepeats(t)
    ensures var o := ParOf(t, x, par);
      && (o == p || o !in t.ring)
      && (x in Elems(t.left) ==>
          o !in Elems(t.right) && (x in t.left.ring ==> o == p) && (x !in t.left.ring ==> o in Elems(t.left)))
      && (x !in Elems(t.left) ==>
          o !in Elems(t.left) && (x in t.right.ring ==> o == p) && (x !in t.right.ring ==> o in Elems(t.right)))
  {
    hide W, NodeRep;
    HeadInElems(m, p, par, idx, t);
    if x in Elems(t.left) {
      if x !in t.left.ring {
        SlotOfInside(m, W(m, p + CHILD0), p, idx, t.left, x, p + CHILD0);
      }
    } else if x !in t.right.ring {
      SlotOfInside(m, W(m, p + CHILD1), p, idx, t.right, x, p + CHILD1);
    }
  }

  /** Once the slot of the node of x leads to tree s, and nothing else outside that node's subtree has
      changed, memory holds t with s put in its place. */
  lemma {:induction false} PutAtRep(m: Mem, m': Mem, p: int, par: int, idx: int, t: Trie, x: int, s: Trie, r: int,
                                    c: int)
    requires x in Elems(t) && TreeRep(m, p, par, idx, t) && NoRepeats(t) && Apart(Elems(t))
    requires TreeRep(m', r, ParOf(t, x, par), idx, s)
    requires SameBut(m, m', Elems(t) - Elems(SubAt(t, x)), SlotOf(t, x, c))
    requires W(m', SlotOf(t, x, c)) == r
    ensures TreeRep(m', if x in t.ring then r else p, par, idx, PutAt(t, x, s))
    decreases t
  {
    hide W, NodeRep, Apart, SameBut, TreeRep, NoRepeats, Elems, RingSet;
    HasNode(t, x);
    if x !in t.ring {
      Below(m, p, par, idx, t, x);
      var o := ParOf(t, x, par);
      var cc := SlotOf(t, x, c);
      var e := Elems(t) - Elems(SubAt(t, x));
      SlotOfInside(m, p, par, idx, t, x, c);
      ParOfSide(m, p, par, idx, t, x);
      HeadInElems(m, p, par, idx, t);
      PutAtSides(m, m', p, par, idx, t, x, cc);
      NodeKept(m, m', p, par, idx, t, e, o, cc);
      if x in Elems(t.left) {
        PutAtRep(m, m', W(m, p + CHILD0), p, idx, t.left, x, s, r, p + CHILD0);
        SubtreeKept(m, m', W(m, p + CHILD1), p, idx, t.right, e, o, cc);
      } else {
        PutAtRep(m, m', W(m, p + CHILD1), p, idx, t.right, x, s, r, p + CHILD1);
        SubtreeKept(m, m', W(m, p + CHILD0), p, idx, t.left, e, o, cc);
      }
      NodeOf(m', p, par, idx, PutAt(t, x, s));
    }
  }

  lemma PutAtSides(m: Mem, m': Mem, p: int, par: int, idx: int, t: Trie, x: int, c: int)
    requires x in Elems(t) && x !in t.ring && TreeRep(m, p, par, idx, t) && NoRepeats(t) && Apart(Elems(t))
    requires SameBut(m, m', Elems(t) - Elems(SubAt(t, x)), c)
    ensures Apart(Elems(t) - Elems(SubAt(t, x)))
    ensures RingSet(t.ring) <= Elems(t) - Elems(SubAt(t, x))
    ensures x in Elems(t.left) ==>
      && Elems(t.right) <= Elems(t) - Elems(SubAt(t, x))
      && Apart(Elems(t.left)) && SameBut(m, m', Elems(t.left) - Elems(SubAt(t.left, x)), c)
    ensures x !in Elems(t.left) ==>
      && Elems(t.left) <= Elems(t) - Elems(SubAt(t, x))
      && Apart(Elems(t.right)) && SameBut(m, m', Elems(t.right) - Elems(SubAt(t.right, x)), c)
  {
    hide W, NodeRep, TreeRep, SameBut, Apart;
    var e, es := Elems(t), Elems(SubAt(t, x));
    ApartLess(e, e - es);
    ApartLess(e, Elems(t.left));
    ApartLess(e, Elems(t.right));
    if x in Elems(t.left) {
      SubAtElems(t.left, x);
      assert forall q :: q in es ==> q in Elems(t.left);
      SameButLess(m, m', e - es, Elems(t.left) - es, c);
    } else {
      SubAtElems(t.right, x);
      assert forall q :: q in es ==> q in Elems(t.right);
      SameButLess(m, m', e - es, Elems(t.right) - es, c);
    }
  }

  lemma ApartLess(e: set<int>, e': set<int>)
    requires Apart(e) && e' <= e
    ensures Apart(e')
  {
  }

  lemma SameButLess(m: Mem, m': Mem, e: set<int>, e': set<int>, c: int)
    requires SameBut(m, m', e, c) && e' <= e
    ensures SameBut(m, m', e', c)
  {
    hide W, SameNode;
  }

  // The last leaf

  /** The slot the last leaf hangs from. */
  function LeafSlot(t: Trie, c: int): int
    requires t.Node?
  {
    if t.right.Node? then LeafSlot(t.right, HeadOf(t) + CHILD1)
    else if t.left.Node? then LeafSlot(t.left, HeadOf(t) + CHILD0)
    else c
  }

  lemma {:induction false} LastLeafIn(m: Mem, p: int, par: int, idx: int, t: Trie)
    requires t.Node? && TreeRep(m, p, par, idx, t)
    ensures HeadOf(LastLeaf(t)) in LastLeaf(t).ring && HeadOf(LastLeaf(t)) in Elems(t)
    ensures LastLeaf(t).left.Nil? && LastLeaf(t).right.Nil?
    decreases t
  {
    hide W, NodeRep;
    HeadInElems(m, p, par, idx, t);
    if t.right.Node? {
      LastLeafIn(m, W(m, p + CHILD1), p, idx, t.right);
    } else if t.left.Node? {
      LastLeafIn(m, W(m, p + CHILD0), p, idx, t.left);
    }
  }

  /** Taking out the last leaf is putting Nil in its place. */
  lemma {:induction false} DropLeafIsPutAt(m: Mem, p: int, par: int, idx: int, t: Trie, c: int)
    requires t.Node? && TreeRep(m, p, par, idx, t) && NoRepeats(t)
    ensures var x := HeadOf(LastLeaf(t));
      && x in Elems(t) && SubAt(t, x) == LastLeaf(t)
      && PutAt(t, x, Nil) == DropLeaf(t) && SlotOf(t, x, c) == LeafSlot(t, c)
    decreases t
  {
    hide W, NodeRep;
    LastLeafIn(m, p, par, idx, t);
    HeadInElems(m, p, par, idx, t);
    if t.right.Node? {
      LastLeafIn(m, W(m, p + CHILD1), p, idx, t.right);
      DropLeafIsPutAt(m, W(m, p + CHILD1), p, idx, t.right, p + CHILD1);
    } else if t.left.Node? {
      LastLeafIn(m, W(m, p + CHILD0), p, idx, t.left);
      DropLeafIsPutAt(m, W(m, p + CHILD0), p, idx, t.left, p + CHILD0);
    }
  }

  // Changes at one node

  /** A subtree whose root has been handed to a new parent. */
  ghost predicate Adopted(m: Mem, m': Mem, p: int, par: int, t: Trie) {
    && (t.Node? ==> W(m', p + PARENT) == par)
    && forall q :: q in Elems(t) ==>
      && W(m', q + FD) == W(m, q + FD) && W(m', q + BK) == W(m, q + BK)
      && W(m', q + INDEX) == W(m, q + INDEX) && SameKids(m, m', q)
      && (q != p ==> W(m', q + PARENT) == W(m, q + PARENT))
  }

  lemma AdoptRep(m: Mem, m': Mem, p: int, par: int, par': int, idx: int, t: Trie)
    requires TreeRep(m, p, par, idx, t) && NoRepeats(t) && Adopted(m, m', p, par', t)
    ensures TreeRep(m', p, par', idx, t)
  {
    hide W, NodeRep, Distinct, NoRepeats, Adopted, SameOn, Elems;
    if t.Node? {
      HeadInElems(m, p, par, idx, t);
      AdoptedParts(m, m', p, par', t);
      TreeFrame(m, m', W(m, p + CHILD0), p, idx, t.left);
      TreeFrame(m, m', W(m, p + CHILD1), p, idx, t.right);
      AdoptNode(m, m', par, par', idx, t.ring);
    }
  }

  lemma AdoptedParts(m: Mem, m': Mem, p: int, par': int, t: Trie)
    requires t.Node? && t.ring != [] && p == t.ring[0] && NoRepeats(t) && Adopted(m, m', p, par', t)
    ensures SameOn(m, m', Elems(t.left)) && NoRepeats(t.left) && SameOn(m, m', Elems(t.right)) && NoRepeats(t.right)
    ensures Distinct(t.ring) && W(m', p + PARENT) == par' && SameKids(m, m', p)
    ensures forall q :: q in t.ring ==>
      && W(m', q + FD) == W(m, q + FD) && W(m', q + BK) == W(m, q + BK) && W(m', q + INDEX) == W(m, q + INDEX)
      && (q != p ==> W(m', q + PARENT) == W(m, q + PARENT) && SameKids(m, m', q))
  {
    hide W, SameKids;
    assert p in t.ring;
    assert forall q :: q in RingSet(t.ring) || q in Elems(t.left) || q in Elems(t.right) ==> q in Elems(t);
  }

  /** A ring keeps its links when only its head's parent word and child words are rewritten. */
  lemma AdoptNode(m: Mem, m': Mem, par: int, par': int, idx: int, ring: seq<int>)
    requires NodeRep(m, ring, par, idx) && Distinct(ring) && W(m', ring[0] + PARENT) == par'
    requires forall q :: q in ring ==>
      && W(m', q + FD) == W(m, q + FD) && W(m', q + BK) == W(m, q + BK) && W(m', q + INDEX) == W(m, q + INDEX)
      && (q != ring[0] ==> W(m', q + PARENT) == W(m, q + PARENT) && SameKids(m, m', q))
    ensures NodeRep(m', ring, par', idx)
  {
    hide W, NextOf, PrevOf;
    forall k | 0 <= k < |ring|
      ensures ring[k] in ring && (k > 0 ==> ring[k] != ring[0])
    {
    }
    RingFrame(m, m', ring);
  }

  /** Chunk x has been linked behind the head of its size class. */
  lemma ChainRep(m: Mem, m': Mem, p: int, par: int, idx: int, t: Trie, x: int)
    requires t.Node? && TreeRep(m, p, par, idx, t) && NoRepeats(t) && Spaced(t.ring) && AwayFrom(t.ring, x)
    requires LinkedIn(m, m', t.ring, x) && ChainedRep(m', x) && W(m', x + INDEX) == idx
    requires forall q ::
      q in t.ring ==> W(m', q + PARENT) == W(m, q + PARENT) && W(m', q + INDEX) == W(m, q + INDEX) && SameKids(m, m', q)
    requires SameOn(m, m', Elems(t.left)) && SameOn(m, m', Elems(t.right))
    ensures TreeRep(m', p, par, idx, t.(ring := AfterHead(t.ring, x)))
  {
    hide W, NextOf, PrevOf, LinkedIn;
    HeadInElems(m, p, par, idx, t);
    InsertAfterHead(m, m', t.ring, x);
    TreeFrame(m, m', W(m, p + CHILD0), p, idx, t.left);
    TreeFrame(m, m', W(m, p + CHILD1), p, idx, t.right);
    var s := AfterHead(t.ring, x);
    forall k | 0 <= k < |s|
      ensures (k > 0 ==> ChainedRep(m', s[k])) && W(m', s[k] + INDEX) == idx
    {
      if k > 1 {
        assert s[k] == t.ring[k - 1] && t.ring[k - 1] in t.ring;
      }
    }
  }

  /** The chained chunk at position k of its ring has been unlinked. */
  lemma UnchainRep(m: Mem, m': Mem, p: int, par: int, idx: int, t: Trie, k: int)
    requires t.Node? && TreeRep(m, p, par, idx, t) && NoRepeats(t) && Spaced(t.ring) && 0 < k < |t.ring|
    requires LinkedOut(m, m', t.ring, k)
    requires forall q ::
      q in t.ring ==> W(m', q + PARENT) == W(m, q + PARENT) && W(m', q + INDEX) == W(m, q + INDEX) && SameKids(m, m', q)
    requires SameOn(m, m', Elems(t.left)) && SameOn(m, m', Elems(t.right))
    ensures TreeRep(m', p, par, idx, t.(ring := Without(t.ring, k)))
  {
    hide W, NextOf, PrevOf, LinkedOut, Spaced;
    HeadInElems(m, p, par, idx, t);
    Unlink(m, m', t.ring, k);
    TreeFrame(m, m', W(m, p + CHILD0), p, idx, t.left);
    TreeFrame(m, m', W(m, p + CHILD1), p, idx, t.right);
    var s := Without(t.ring, k);
    forall i | 0 <= i < |s|
      ensures (i > 0 ==> ChainedRep(m', s[i])) && W(m', s[i] + INDEX) == idx
    {
      var j := if i < k then i else i + 1;
      assert s[i] == t.ring[j] && t.ring[j] in t.ring;
    }
  }

  /** The head of a ring has been unlinked and its bk neighbour linked into the tree instead. */
  lemma UnheadRep(m: Mem, m': Mem, par: int, par': int, idx: int, ring: seq<int>)
    requires NodeRep(m, ring, par, idx) && |ring| > 1 && Spaced(ring) && Distinct(ring)
    requires LinkedOut(m, m', ring, 0)
    requires var r := PrevOf(ring, 0);
      && W(m', r + PARENT) == par' && r != 0
      && forall q :: q in ring ==>
         W(m', q + INDEX) == W(m, q + INDEX) && (q != r ==> W(m', q + PARENT) == W(m, q + PARENT) && SameKids(m, m', q))
    ensures NodeRep(m', Rotated(Without(ring, 0)), par', idx)
    ensures Rotated(Without(ring, 0))[0] == PrevOf(ring, 0)
  {
    hide W, NextOf, PrevOf, LinkedOut, Spaced, RingRep, Rotated, Without;
    NodeParts(m, ring, par, idx);
    Unlink(m, m', ring, 0);
    HeadlessLength(ring);
    Rotate(m', Without(ring, 0));
    var s := Rotated(Without(ring, 0));
    HeadlessAt(ring, 0);
    forall i | 0 <= i < |s|
      ensures (i > 0 ==> ChainedRep(m', s[i])) && W(m', s[i] + INDEX) == idx
    {
      HeadlessAt(ring, i);
      if i > 0 {
        NotPrev(ring, i);
        KeptChained(m, m', ring, par, idx, i);
      }
    }
  }

  lemma NodeParts(m: Mem, ring: seq<int>, par: int, idx: int)
    requires NodeRep(m, ring, par, idx)
    ensures RingRep(m, ring) && ring != []
  {
    hide W, RingRep;
  }

  lemma HeadlessLength(ring: seq<int>)
    requires |ring| > 1
    ensures |Without(ring, 0)| == |ring| - 1 && |Rotated(Without(ring, 0))| == |ring| - 1
  {
  }

  /** The ring without its head, read from its last member. */
  lemma HeadlessAt(ring: seq<int>, i: int)
    requires |ring| > 1 && Without(ring, 0) != [] && 0 <= i < |Rotated(Without(ring, 0))|
    ensures |Rotated(Without(ring, 0))| == |ring| - 1
    ensures Rotated(Without(ring, 0))[i] == ring[if i == 0 then |ring| - 1 else i]
    ensures PrevOf(ring, 0) == ring[|ring| - 1]
    ensures ring[if i == 0 then |ring| - 1 else i] in ring
  {
  }

  lemma NotPrev(ring: seq<int>, i: int)
    requires |ring| > 1 && Distinct(ring) && 0 < i < |ring| - 1
    ensures ring[i] != PrevOf(ring, 0)
  {
  }

  lemma KeptChained(m: Mem, m': Mem, ring: seq<int>, par: int, idx: int, i: int)
    requires NodeRep(m, ring, par, idx) && 0 < i < |ring|
    requires W(m', ring[i] + PARENT) == W(m, ring[i] + PARENT) && SameKids(m, m', ring[i])
    ensures ChainedRep(m', ring[i])
  {
    hide W, RingRep;
  }

  // Meeting a node of the same size

  lemma {:induction false} SameSizeIsPutAt(m: Mem, p: int, par: int, idx: int, t: Trie, x: int, s: int, lo: int, w: int)
    requires TreeRep(m, p, par, idx, t) && NoRepeats(t) && SameSizeNode(t, s, lo, w).Node?
    ensures var n := SameSizeNode(t, s, lo, w);
      && HeadOf(n) in Elems(t) && n.size == s && n == SubAt(t, HeadOf(n))
      && Insert(t, x, s, lo, w) == PutAt(t, HeadOf(n), n.(ring := AfterHead(n.ring, x)))
    decreases t
  {
    hide W, NodeRep;
    HeadInElems(m, p, par, idx, t);
    if t.size == s {
    } else if s < lo + w / 2 {
      SameSizeIsPutAt(m, W(m, p + CHILD0), p, idx, t.left, x, s, lo, w / 2);
    } else {
      SameSizeIsPutAt(m, W(m, p + CHILD1), p, idx, t.right, x, s, lo + w / 2, w / 2);
    }
  }
}
