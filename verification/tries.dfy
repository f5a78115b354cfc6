/** The bitwise tries that hold large free chunks, as values.

    A node stands for one chunk size; its ring lists the chunks of that size, the one linked into the
    tree first.  A subtree spans a range of sizes, and its children span the two halves of that range.
    The map bn gives the size of every binned chunk. */
module Tries {
  import opened BinIndex
  import opened Rings

  datatype Trie = Nil | Node(ring: seq<int>, size: int, left: Trie, right: Trie)

  /** All chunks in the tree. */
  function Elems(t: Trie): set<int> {
    match t
    case Nil => {}
    case Node(ring, _, l, r) => (set p | p in ring) + Elems(l) + Elems(r)
  }

  ghost predicate Distinct(r: seq<int>) {
    forall i, j :: 0 <= i < j < |r| ==> r[i] != r[j]
  }

  /** What a node says about its own ring. */
  ghost predicate RingOk(ring: seq<int>, size: int, bn: map<int, int>) {
    && ring != [] && Distinct(ring)
    && forall p :: p in ring ==> p in bn && bn[p] == size
  }

  /** No chunk of this set has the given size. */
  ghost predicate NoneOfSize(s: set<int>, size: int, bn: map<int, int>) {
    forall p :: p in s && p in bn ==> bn[p] != size
  }

  /** The trie invariant for a subtree spanning sizes [lo, lo + w). */
  ghost predicate TrieOk(t: Trie, lo: int, w: int, bn: map<int, int>)
    decreases t
  {
    match t
    case Nil => true
    case Node(ring, size, l, r) =>
      && RingOk(ring, size, bn)
      && lo <= size < lo + w
      && NoneOfSize(Elems(l), size, bn)
      && NoneOfSize(Elems(r), size, bn)
      && TrieOk(l, lo, w / 2, bn)
      && TrieOk(r, lo + w / 2, w / 2, bn)
  }

  /** Every chunk in a subtree has a size in the subtree's range. */
  lemma {:induction false} ElemsInRange(t: Trie, lo: int, w: int, bn: map<int, int>)
    requires w > 0 && TrieOk(t, lo, w, bn)
    ensures forall p :: p in Elems(t) ==> p in bn && lo <= bn[p] < lo + w
    decreases t
  {
    if t.Node? {
      if w / 2 > 0 {
        ElemsInRange(t.left, lo, w / 2, bn);
        ElemsInRange(t.right, lo + w / 2, w / 2, bn);
      } else {
        NarrowIsNil(t.left, lo, bn);
        NarrowIsNil(t.right, lo, bn);
      }
    }
  }

  lemma NarrowIsNil(t: Trie, lo: int, bn: map<int, int>)
    requires TrieOk(t, lo, 0, bn)
    ensures t.Nil?
  {
  }

  /** The smallest size along the leftmost path: left child if there is one, else right. */
  function MinOf(t: Trie): int
    requires t.Node?
  {
    if t.left.Node? then Min(t.size, MinOf(t.left))
    else if t.right.Node? then Min(t.size, MinOf(t.right))
    else t.size
  }

  function Min(a: int, b: int): int {
    if a < b then a else b
  }

  /** leftmost_child. */
  function LeftmostChild(t: Trie): Trie
    requires t.Node?
  {
    if t.left.Node? then t.left else t.right
  }

  /** The leftmost path passes through the smallest chunk of the tree. */
  lemma {:induction false} MinOfIsLeast(t: Trie, lo: int, w: int, bn: map<int, int>)
    requires t.Node? && w > 0 && TrieOk(t, lo, w, bn)
    ensures lo <= MinOf(t) < lo + w
    ensures forall p :: p in Elems(t) ==> p in bn && MinOf(t) <= bn[p]
    decreases t
  {
    var h := w / 2;
    if h == 0 {
      NarrowIsNil(t.left, lo, bn);
      NarrowIsNil(t.right, lo, bn);
    } else {
      ElemsInRange(t.left, lo, h, bn);
      ElemsInRange(t.right, lo + h, h, bn);
      if t.left.Node? {
        MinOfIsLeast(t.left, lo, h, bn);
      } else if t.right.Node? {
        MinOfIsLeast(t.right, lo + h, h, bn);
      }
    }
  }

  /** The invariant only depends on the sizes of the chunks in the tree. */
  lemma {:induction false} TrieOkFrame(t: Trie, lo: int, w: int, bn: map<int, int>, bn': map<int, int>)
    requires TrieOk(t, lo, w, bn)
    requires forall p :: p in Elems(t) && p in bn ==> p in bn' && bn'[p] == bn[p]
    requires forall p :: p in Elems(t) && p in bn' ==> p in bn
    ensures TrieOk(t, lo, w, bn')
    decreases t
  {
    if t.Node? {
      TrieOkFrame(t.left, lo, w / 2, bn, bn');
      TrieOkFrame(t.right, lo + w / 2, w / 2, bn, bn');
    }
  }

  // Insertion

  /** The ring with x linked in behind its head. */
  function AfterHead(ring: seq<int>, x: int): seq<int> {
    if ring == [] then [x] else [ring[0], x] + ring[1..]
  }

  function Insert(t: Trie, x: int, s: int, lo: int, w: int): Trie
    decreases t
  {
    match t
    case Nil => Node([x], s, Nil, Nil)
    case Node(ring, size, l, r) =>
      if size == s then Node(AfterHead(ring, x), size, l, r)
      else if s < lo + w / 2 then Node(ring, size, Insert(l, x, s, lo, w / 2), r)
      else Node(ring, size, l, Insert(r, x, s, lo + w / 2, w / 2))
  }

  lemma AfterHeadOk(ring: seq<int>, x: int, s: int, bn: map<int, int>)
    requires RingOk(ring, s, bn) && x !in bn
    ensures RingOk(AfterHead(ring, x), s, bn[x := s])
    ensures (set p | p in AfterHead(ring, x)) == (set p | p in ring) + {x}
  {
    var r' := AfterHead(ring, x);
    assert forall k :: 0 <= k < |r'| ==> r'[k] == if k == 1 then x else if k == 0 then ring[0] else ring[k - 1];
    assert r'[1] == x;
    forall p | p in ring ensures p in r' {
      var k :| 0 <= k < |ring| && ring[k] == p;
      assert r'[if k == 0 then 0 else k + 1] == p;
    }
  }

  lemma {:induction false} InsertElems(t: Trie, x: int, s: int, lo: int, w: int)
    ensures Elems(Insert(t, x, s, lo, w)) == Elems(t) + {x}
    decreases t
  {
    match t
    case Nil =>
    case Node(ring, size, l, r) =>
      if size == s {
        var r' := AfterHead(ring, x);
        forall p ensures p in r' <==> p in ring || p == x {
          if ring != [] {
            assert r' == [ring[0]] + [x] + ring[1..];
            assert ring == [ring[0]] + ring[1..];
          }
        }
      } else if s < lo + w / 2 {
        InsertElems(l, x, s, lo, w / 2);
      } else {
        InsertElems(r, x, s, lo + w / 2, w / 2);
      }
  }

  /** Adding a chunk of another size does not make the node's size ambiguous. */
  lemma NoneAfterAdd(e: set<int>, size: int, bn: map<int, int>, x: int, s: int)
    requires NoneOfSize(e, size, bn) && x !in bn && s != size
    ensures NoneOfSize(e + {x}, size, bn[x := s])
    ensures NoneOfSize(e, size, bn[x := s])
  {
  }

  /** Inserting keeps the trie invariant and adds exactly the new chunk. */
  lemma {:induction false} InsertOk(t: Trie, x: int, s: int, lo: int, w: int, bn: map<int, int>)
    requires IsPow2(w) && lo <= s < lo + w && TrieOk(t, lo, w, bn) && x !in bn
    ensures TrieOk(Insert(t, x, s, lo, w), lo, w, bn[x := s])
    ensures Elems(Insert(t, x, s, lo, w)) == Elems(t) + {x}
    decreases t
  {
    InsertElems(t, x, s, lo, w);
    var bn' := bn[x := s];
    match t
    case Nil =>
      assert RingOk([x], s, bn');
    case Node(ring, size, l, r) =>
      NewChunkFrame(t, lo, w, bn, x, s);
      if size == s {
        AfterHeadOk(ring, x, s, bn);
      } else {
        hide Elems, RingOk, NoneOfSize;
        NoneAfterAdd(Elems(l), size, bn, x, s);
        NoneAfterAdd(Elems(r), size, bn, x, s);
        InsertElems(l, x, s, lo, w / 2);
        InsertElems(r, x, s, lo + w / 2, w / 2);
        if s < lo + w / 2 {
          InsertOk(l, x, s, lo, w / 2, bn);
        } else {
          InsertOk(r, x, s, lo + w / 2, w / 2, bn);
        }
      }
  }

  /** A chunk that is not in the tree yet can be added to the size map. */
  lemma NewChunkFrame(t: Trie, lo: int, w: int, bn: map<int, int>, x: int, s: int)
    requires t.Node? && TrieOk(t, lo, w, bn) && x !in bn
    ensures TrieOk(t.left, lo, w / 2, bn[x := s]) && TrieOk(t.right, lo + w / 2, w / 2, bn[x := s])
    ensures RingOk(t.ring, t.size, bn[x := s])
    ensures NoneOfSize(Elems(t.left), t.size, bn[x := s]) && NoneOfSize(Elems(t.right), t.size, bn[x := s])
  {
    ElemsAreBinned(t, lo, w, bn);
    TrieOkFrame(t, lo, w, bn, bn[x := s]);
  }

  lemma {:induction false} ElemsAreBinned(t: Trie, lo: int, w: int, bn: map<int, int>)
    requires TrieOk(t, lo, w, bn)
    ensures forall p :: p in Elems(t) ==> p in bn
    decreases t
  {
    if t.Node? {
      ElemsAreBinned(t.left, lo, w / 2, bn);
      ElemsAreBinned(t.right, lo + w / 2, w / 2, bn);
    }
  }

  // Removal

  function IndexOf(r: seq<int>, x: int): (k: int)
    requires x in r
    ensures 0 <= k < |r| && r[k] == x
  {
    if r[0] == x then 0 else 1 + IndexOf(r[1..], x)
  }

  /** The ring without x.  When x was the head, its bk neighbour becomes the head. */
  function DropFromRing(r: seq<int>, x: int): seq<int>
    requires x in r && |r| > 1
  {
    var k := IndexOf(r, x);
    if k == 0 then Rotated(Without(r, 0)) else Without(r, k)
  }

  /** The leaf reached by going right whenever possible, else left. */
  function LastLeaf(t: Trie): (n: Trie)
    requires t.Node?
    ensures n.Node?
  {
    if t.right.Node? then LastLeaf(t.right)
    else if t.left.Node? then LastLeaf(t.left)
    else t
  }

  /** The tree without that leaf. */
  function DropLeaf(t: Trie): Trie
    requires t.Node?
  {
    if t.right.Node? then t.(right := DropLeaf(t.right))
    else if t.left.Node? then t.(left := DropLeaf(t.left))
    else Nil
  }

  /** The subtree t, rooted at the node of x, once x has been removed. */
  function RemoveHere(t: Trie, x: int): Trie
    requires t.Node? && x in t.ring
  {
    if |t.ring| > 1 then t.(ring := DropFromRing(t.ring, x))
    else if t.right.Node? then
      var n := LastLeaf(t.right);
      Node(n.ring, n.size, t.left, DropLeaf(t.right))
    else if t.left.Node? then
      var n := LastLeaf(t.left);
      Node(n.ring, n.size, DropLeaf(t.left), t.right)
    else Nil
  }

  function Remove(t: Trie, x: int): Trie
    requires x in Elems(t)
  {
    if x in t.ring then RemoveHere(t, x)
    else if x in Elems(t.left) then t.(left := Remove(t.left, x))
    else t.(right := Remove(t.right, x))
  }

  function RingSet(ring: seq<int>): set<int> {
    set p | p in ring
  }

  lemma DropFromRingOk(ring: seq<int>, x: int, size: int, bn: map<int, int>)
    requires RingOk(ring, size, bn) && x in ring && |ring| > 1
    ensures RingOk(DropFromRing(ring, x), size, bn - {x})
    ensures RingSet(DropFromRing(ring, x)) == RingSet(ring) - {x}
  {
    var k := IndexOf(ring, x);
    var r := DropFromRing(ring, x);
    WithoutSet(ring, k);
    if k == 0 {
      RotatedSet(Without(ring, 0));
    }
  }

  lemma WithoutSet(ring: seq<int>, k: int)
    requires 0 <= k < |ring| && Distinct(ring)
    ensures Distinct(Without(ring, k))
    ensures forall p :: p in Without(ring, k) <==> p in ring && p != ring[k]
  {
    var r := Without(ring, k);
    assert forall i :: 0 <= i < |r| ==> r[i] == ring[if i < k then i else i + 1];
    forall p | p in ring && p != ring[k] ensures p in r {
      var i :| 0 <= i < |ring| && ring[i] == p;
      assert r[if i < k then i else i - 1] == p;
    }
  }

  lemma RotatedSet(r: seq<int>)
    requires r != [] && Distinct(r)
    ensures Distinct(Rotated(r)) && Rotated(r) != []
    ensures forall p :: p in Rotated(r) <==> p in r
  {
    var s := Rotated(r);
    var n := |r|;
    assert forall i :: 0 <= i < n ==> s[i] == r[if i == 0 then n - 1 else i - 1];
    forall p | p in r ensures p in s {
      var i :| 0 <= i < n && r[i] == p;
      assert s[if i == n - 1 then 0 else i + 1] == p;
    }
  }

  /** The last leaf carries one whole size class out of the tree. */
  lemma {:induction false} DropLeafOk(t: Trie, lo: int, w: int, bn: map<int, int>)
    requires t.Node? && w > 0 && TrieOk(t, lo, w, bn)
    ensures RingOk(LastLeaf(t).ring, LastLeaf(t).size, bn) && lo <= LastLeaf(t).size < lo + w
    ensures RingSet(LastLeaf(t).ring) <= Elems(t)
    ensures Elems(DropLeaf(t)) == Elems(t) - RingSet(LastLeaf(t).ring)
    ensures TrieOk(DropLeaf(t), lo, w, bn)
    ensures NoneOfSize(Elems(DropLeaf(t)), LastLeaf(t).size, bn)
    decreases t
  {
    hide TrieOk, RingOk, NoneOfSize, Elems;
    var h := w / 2;
    SubtriesOk(t, lo, w, bn);
    PartsDisjoint(t, lo, w, bn);
    if t.right.Node? {
      NarrowNode(t.right, lo, h, bn);
      DropLeafOk(t.right, lo + h, h, bn);
      DropRightOk(t, DropLeaf(t.right), LastLeaf(t.right).ring, LastLeaf(t.right).size, lo, w, bn);
    } else if t.left.Node? {
      NarrowNode(t.left, lo, h, bn);
      DropLeafOk(t.left, lo, h, bn);
      DropLeftOk(t, DropLeaf(t.left), LastLeaf(t.left).ring, LastLeaf(t.left).size, lo, w, bn);
    } else {
      LeafItself(t, lo, w, bn);
    }
  }

  lemma LeafItself(t: Trie, lo: int, w: int, bn: map<int, int>)
    requires t.Node? && t.left.Nil? && t.right.Nil? && TrieOk(t, lo, w, bn)
    ensures RingOk(t.ring, t.size, bn) && lo <= t.size < lo + w && RingSet(t.ring) == Elems(t)
    ensures Elems(Nil) == Elems(t) - RingSet(t.ring) && TrieOk(Nil, lo, w, bn) && NoneOfSize(Elems(Nil), t.size, bn)
  {
    hide RingOk;
  }

  /** A size class taken out of the right subtree is out of the tree: the node and the left subtree hold other sizes. */
  lemma DropRightOk(t: Trie, d: Trie, ring: seq<int>, size: int, lo: int, w: int, bn: map<int, int>)
    requires t.Node? && w > 0 && TrieOk(t, lo, w, bn) && RingOk(ring, size, bn)
    requires lo + w / 2 <= size < lo + w / 2 + w / 2
    requires RingSet(ring) <= Elems(t.right) && Elems(d) == Elems(t.right) - RingSet(ring)
    requires TrieOk(d, lo + w / 2, w / 2, bn) && NoneOfSize(Elems(d), size, bn)
    requires forall p :: p in t.ring ==> p !in Elems(t.left) && p !in Elems(t.right)
    requires forall p :: p in Elems(t.left) ==> p !in Elems(t.right)
    ensures var t' := t.(right := d);
      && RingSet(ring) <= Elems(t) && Elems(t') == Elems(t) - RingSet(ring) && TrieOk(t', lo, w, bn)
      && NoneOfSize(Elems(t'), size, bn)
      && lo <= size < lo + w
  {
    ElemsInRange(t.left, lo, w / 2, bn);
    OtherSize(t.right, t, ring, size, bn);
    var t' := t.(right := d);
    forall p ensures p in Elems(t') <==> p in Elems(t) - RingSet(ring) {
      assert p in RingSet(ring) ==> p in Elems(t.right);
    }
  }

  lemma DropLeftOk(t: Trie, d: Trie, ring: seq<int>, size: int, lo: int, w: int, bn: map<int, int>)
    requires t.Node? && t.right.Nil? && w > 0 && TrieOk(t, lo, w, bn) && RingOk(ring, size, bn)
    requires lo <= size < lo + w / 2
    requires RingSet(ring) <= Elems(t.left) && Elems(d) == Elems(t.left) - RingSet(ring)
    requires TrieOk(d, lo, w / 2, bn) && NoneOfSize(Elems(d), size, bn)
    requires forall p :: p in t.ring ==> p !in Elems(t.left) && p !in Elems(t.right)
    ensures var t' := t.(left := d);
      && RingSet(ring) <= Elems(t) && Elems(t') == Elems(t) - RingSet(ring) && TrieOk(t', lo, w, bn)
      && NoneOfSize(Elems(t'), size, bn)
      && lo <= size < lo + w
  {
    OtherSize(t.left, t, ring, size, bn);
    var t' := t.(left := d);
    forall p ensures p in Elems(t') <==> p in Elems(t) - RingSet(ring) {
      assert p in RingSet(ring) ==> p in Elems(t.left);
    }
  }

  /** A chunk below the node is of another size than the node. */
  lemma OtherSize(c: Trie, t: Trie, ring: seq<int>, size: int, bn: map<int, int>)
    requires t.Node? && RingOk(ring, size, bn) && RingSet(ring) <= Elems(c) && NoneOfSize(Elems(c), t.size, bn)
    ensures size != t.size
  {
    assert ring[0] in RingSet(ring);
  }

  lemma NarrowNode(c: Trie, lo: int, h: int, bn: map<int, int>)
    requires c.Node? && h >= 0 && (TrieOk(c, lo, h, bn) || TrieOk(c, lo + h, h, bn))
    ensures h > 0
  {
  }

  /** The leaf taken from child c is of another size than the node above. */
  lemma DropLeafNode(t: Trie, c: Trie, bn: map<int, int>)
    requires t.Node? && c.Node? && RingOk(t.ring, t.size, bn) && NoneOfSize(Elems(c), t.size, bn)
    requires RingOk(LastLeaf(c).ring, LastLeaf(c).size, bn) && RingSet(LastLeaf(c).ring) <= Elems(c)
    ensures LastLeaf(c).size != t.size
    ensures RingSet(t.ring) !! RingSet(LastLeaf(c).ring)
  {
    var q := LastLeaf(c).ring[0];
    assert q in RingSet(LastLeaf(c).ring);
  }

  /** A node's ring is disjoint from both subtrees, and the subtrees from each other. */
  lemma PartsDisjoint(t: Trie, lo: int, w: int, bn: map<int, int>)
    requires t.Node? && w > 0 && TrieOk(t, lo, w, bn)
    ensures forall p :: p in t.ring ==> p !in Elems(t.left) && p !in Elems(t.right)
    ensures forall p :: p in Elems(t.left) ==> p !in Elems(t.right)
  {
    ElemsInRange(t, lo, w, bn);
    if w / 2 == 0 {
      NarrowIsNil(t.left, lo, bn);
      NarrowIsNil(t.right, lo, bn);
    } else {
      ElemsInRange(t.left, lo, w / 2, bn);
      ElemsInRange(t.right, lo + w / 2, w / 2, bn);
    }
  }

  /** Taking chunks away leaves the rest of the trie well formed. */
  lemma TrieOkShrink(t: Trie, lo: int, w: int, bn: map<int, int>, x: int)
    requires TrieOk(t, lo, w, bn) && x !in Elems(t)
    ensures TrieOk(t, lo, w, bn - {x})
  {
    ElemsAreBinned(t, lo, w, bn);
    TrieOkFrame(t, lo, w, bn, bn - {x});
  }

  /** The node above leaf n, its ring replaced by the leaf's. */
  lemma LeafReplaces(t: Trie, c: Trie, lo: int, w: int, bn: map<int, int>, x: int)
    requires t.Node? && w > 0 && TrieOk(t, lo, w, bn) && t.ring == [x]
    requires (c == t.right || (c == t.left && t.right.Nil?)) && c.Node?
    ensures var n := LastLeaf(c);
      RingOk(n.ring, n.size, bn - {x}) && lo <= n.size < lo + w
      && NoneOfSize(Elems(DropLeaf(c)), n.size, bn - {x})
      && (c == t.right ==> NoneOfSize(Elems(t.left), n.size, bn - {x}))
  {
    var h := w / 2;
    var l := if c == t.right then lo + h else lo;
    NarrowNode(c, lo, h, bn);
    DropLeafOk(c, l, h, bn);
    DropLeafNode(t, c, bn);
    if c == t.right {
      ElemsInRange(t.left, lo, h, bn);
    }
  }

  lemma RemoveHereOk(t: Trie, x: int, lo: int, w: int, bn: map<int, int>)
    requires t.Node? && x in t.ring && w > 0 && TrieOk(t, lo, w, bn)
    ensures TrieOk(RemoveHere(t, x), lo, w, bn - {x})
    ensures Elems(RemoveHere(t, x)) == Elems(t) - {x}
  {
    PartsDisjoint(t, lo, w, bn);
    TrieOkShrink(t.left, lo, w / 2, bn, x);
    TrieOkShrink(t.right, lo + w / 2, w / 2, bn, x);
    if |t.ring| > 1 {
      DropFromRingOk(t.ring, x, t.size, bn);
      assert Elems(RemoveHere(t, x)) == RingSet(DropFromRing(t.ring, x)) + Elems(t.left) + Elems(t.right);
      assert Elems(t) == RingSet(t.ring) + Elems(t.left) + Elems(t.right);
    } else {
      assert t.ring == [x];
      assert Elems(t) == {x} + Elems(t.left) + Elems(t.right);
      if t.right.Node? {
        RemoveSingle(t, t.right, x, lo, w, bn);
      } else if t.left.Node? {
        RemoveSingle(t, t.left, x, lo, w, bn);
      }
    }
  }

  lemma RemoveSingle(t: Trie, c: Trie, x: int, lo: int, w: int, bn: map<int, int>)
    requires t.Node? && w > 0 && TrieOk(t, lo, w, bn) && t.ring == [x]
    requires (c == t.right || (c == t.left && t.right.Nil?)) && c.Node?
    requires x !in Elems(t.left) && x !in Elems(t.right)
    ensures TrieOk(RemoveHere(t, x), lo, w, bn - {x})
    ensures Elems(RemoveHere(t, x)) == Elems(t.left) + Elems(t.right)
  {
    LeafReplaces(t, c, lo, w, bn, x);
    TrieOkShrink(t.left, lo, w / 2, bn, x);
    TrieOkShrink(t.right, lo + w / 2, w / 2, bn, x);
    var h := w / 2;
    var l := if c == t.right then lo + h else lo;
    NarrowNode(c, lo, h, bn);
    DropLeafOk(c, l, h, bn);
    DropLeafOk(c, l, h, bn - {x});
    if c == t.right {
      var n := LastLeaf(t.right);
      assert RemoveHere(t, x) == Node(n.ring, n.size, t.left, DropLeaf(t.right));
    } else {
      var n := LastLeaf(t.left);
      assert RemoveHere(t, x) == Node(n.ring, n.size, DropLeaf(t.left), t.right);
    }
  }

  /** Removal keeps the trie invariant and takes out exactly x. */
  lemma {:induction false} RemoveOk(t: Trie, x: int, lo: int, w: int, bn: map<int, int>)
    requires x in Elems(t) && w > 0 && TrieOk(t, lo, w, bn)
    ensures TrieOk(Remove(t, x), lo, w, bn - {x})
    ensures Elems(Remove(t, x)) == Elems(t) - {x}
    decreases t
  {
    hide TrieOk, Elems, RemoveHere;
    MemberOf(t, x);
    PartsDisjoint(t, lo, w, bn);
    SubtriesOk(t, lo, w, bn);
    if x in t.ring {
      RemoveHereOk(t, x, lo, w, bn);
    } else {
      var h := w / 2;
      if x in Elems(t.left) {
        HasWidth(t.left, x, lo, h, bn);
        RemoveOk(t.left, x, lo, h, bn);
        TrieOkShrink(t.right, lo + h, h, bn, x);
        RemoveBelow(t, Remove(t.left, x), t.right, x, lo, w, bn);
      } else {
        HasWidth(t.right, x, lo + h, h, bn);
        RemoveOk(t.right, x, lo + h, h, bn);
        TrieOkShrink(t.left, lo, h, bn, x);
        RemoveBelow(t, t.left, Remove(t.right, x), x, lo, w, bn);
      }
    }
  }

  lemma SubtriesOk(t: Trie, lo: int, w: int, bn: map<int, int>)
    requires t.Node? && TrieOk(t, lo, w, bn)
    ensures TrieOk(t.left, lo, w / 2, bn) && TrieOk(t.right, lo + w / 2, w / 2, bn)
  {
  }

  lemma MemberOf(t: Trie, x: int)
    requires x in Elems(t)
    ensures t.Node? && (x in t.ring || x in Elems(t.left) || x in Elems(t.right))
  {
  }

  lemma HasWidth(c: Trie, x: int, lo: int, h: int, bn: map<int, int>)
    requires x in Elems(c) && TrieOk(c, lo, h, bn)
    ensures h > 0
  {
  }

  /** A node both of whose subtrees have lost x, or never had it. */
  lemma RemoveBelow(t: Trie, l: Trie, r: Trie, x: int, lo: int, w: int, bn: map<int, int>)
    requires t.Node? && x !in t.ring && w > 0 && TrieOk(t, lo, w, bn)
    requires Elems(l) == Elems(t.left) - {x} && Elems(r) == Elems(t.right) - {x}
    requires TrieOk(l, lo, w / 2, bn - {x}) && TrieOk(r, lo + w / 2, w / 2, bn - {x})
    ensures TrieOk(Node(t.ring, t.size, l, r), lo, w, bn - {x})
    ensures Elems(Node(t.ring, t.size, l, r)) == Elems(t) - {x}
  {
  }

  // How deep a trie can be

  function Depth(t: Trie): nat {
    match t
    case Nil => 0
    case Node(_, _, l, r) => 1 + if Depth(l) > Depth(r) then Depth(l) else Depth(r)
  }

  /** No way down is longer than the number of size bits that the range leaves open; sizes are multiples of eight. */
  lemma {:induction false} DepthBound(t: Trie, lo: int, k: nat, bn: map<int, int>)
    requires TrieOk(t, lo, 8 * Pow2(k), bn) && lo % 8 == 0
    requires forall p :: p in Elems(t) && p in bn ==> bn[p] % 8 == 0
    ensures Depth(t) <= k + 1
    decreases t
  {
    if t.Node? {
      if k == 0 {
        OneSizeLeft(t, lo, bn);
      } else {
        var half := 8 * Pow2(k - 1);
        assert 8 * Pow2(k) / 2 == half;
        EighthSum(lo, Pow2(k - 1));
        DepthBound(t.left, lo, k - 1, bn);
        DepthBound(t.right, lo + half, k - 1, bn);
      }
    }
  }

  lemma EighthSum(lo: int, n: int)
    requires lo % 8 == 0
    ensures (lo + 8 * n) % 8 == 0
  {
  }

  lemma OneEighth(lo: int, x: int)
    requires lo % 8 == 0 && x % 8 == 0 && lo <= x < lo + 8
    ensures x == lo
  {
  }

  lemma OneSizeLeft(t: Trie, lo: int, bn: map<int, int>)
    requires t.Node? && TrieOk(t, lo, 8, bn) && lo % 8 == 0
    requires forall p :: p in Elems(t) && p in bn ==> bn[p] % 8 == 0
    ensures t.left.Nil? && t.right.Nil?
  {
    var p := t.ring[0];
    assert p in t.ring && p in Elems(t);
    OneEighth(lo, bn[p]);
    if t.left.Node? {
      var q := t.left.ring[0];
      assert q in t.left.ring && q in Elems(t.left) && q in Elems(t);
      OneEighth(lo, bn[q]);
    }
    if t.right.Node? {
      var q := t.right.ring[0];
      assert q in t.right.ring && q in Elems(t.right) && q in Elems(t);
      OneEighth(lo, bn[q]);
    }
  }
}
