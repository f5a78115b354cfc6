/** The searching loops over a tree bin. */
module TreeSearch {
  import opened BinIndex
  import opened Tries
  import opened TrieMem
  import opened TreeRemove
  import opened Words

  /** Every word of every binned chunk is mapped, and its head word shows its size. */
  ghost predicate Readable(m: Mem, bn: map<int, int>) {
    && (forall p, a :: p in bn && p <= a < p + bn[p] ==> a in m)
    && (forall p :: p in bn ==> ChunkSize(W(m, p + HEAD)) == bn[p])
  }

  /** A tree whose chunks can be read, reached from p. */
  ghost predicate Walkable(m: Mem, p: int, par: int, i: int, t: Trie, lo: int, w: int, bn: map<int, int>) {
    TreeRep(m, p, par, i, t) && TrieOk(t, lo, w, bn) && IsPow2(w) && lo >= 0
  }

  ghost predicate LargeOnly(bn: map<int, int>, s: set<int>) {
    forall p :: p in s ==> p in bn && bn[p] >= MIN_LARGE_SIZE
  }

  lemma WalkStep(m: Mem, p: int, par: int, i: int, t: Trie, lo: int, w: int, bn: map<int, int>)
    requires t.Node? && Walkable(m, p, par, i, t, lo, w, bn) && Readable(m, bn) && LargeOnly(bn, Elems(t))
    ensures p != 0 && p == HeadOf(t) && p in bn && bn[p] == t.size
    ensures p + HEAD in m && p + CHILD0 in m && p + CHILD1 in m && ChunkSize(W(m, p + HEAD)) == t.size
    ensures lo <= t.size < lo + w
    ensures w > 1 ==> w % 2 == 0 && Walkable(m, W(m, p + CHILD0), p, i, t.left, lo, w / 2, bn)
    ensures w > 1 ==> Walkable(m, W(m, p + CHILD1), p, i, t.right, lo + w / 2, w / 2, bn)
    ensures Elems(t.left) <= Elems(t) && Elems(t.right) <= Elems(t)
    ensures W(m, p + CHILD0) == 0 <==> t.left.Nil?
    ensures W(m, p + CHILD1) == 0 <==> t.right.Nil?
  {
    hide W, NodeRep;
    HeadInElems(m, p, par, i, t);
    ChildNull(m, W(m, p + CHILD0), p, i, t.left);
    ChildNull(m, W(m, p + CHILD1), p, i, t.right);
  }

  lemma ChildNull(m: Mem, p: int, par: int, i: int, t: Trie)
    requires TreeRep(m, p, par, i, t)
    ensures p == 0 <==> t.Nil?
  {
  }

  /** The descent of insert_large_chunk: to the node of size s, or to the empty slot where it belongs. */
  method FindInsertPoint(m: Mem, root: int, i: int, s: int, ghost t: Trie, ghost bn: map<int, int>)
      returns (tt: int, c: int, same: bool)
    requires 0 <= i <= 31 && t.Node? && Walkable(m, root, TB(i), i, t, BinBase(i), BinWidth(i), bn)
    requires Readable(m, bn) && LargeOnly(bn, Elems(t)) && BinBase(i) <= s < BinBase(i) + BinWidth(i)
    ensures same <==> SameSizeNode(t, s, BinBase(i), BinWidth(i)).Node?
    ensures same ==> tt == HeadOf(SameSizeNode(t, s, BinBase(i), BinWidth(i)))
    ensures !same ==> c == InsertSlot(t, s, BinBase(i), BinWidth(i), TB(i))
    ensures !same ==> tt == InsertParent(t, s, BinBase(i), BinWidth(i), TB(i))
  {
    hide W, BinBase, BinWidth, KeyFor, U64, TreeRep, TrieOk, IsPow2, Readable, LargeOnly, Walkable, Elems, LeftShift,
      Pow2;
    tt := root;
    c := TB(i);
    var k := U64(s * Pow2(LeftShift(i)));
    KeyAtRoot(s, i);
    ghost var cur, lo, w, par := t, BinBase(i), BinWidth(i), TB(i);
    while true
      invariant cur.Node? && Walkable(m, tt, par, i, cur, lo, w, bn) && Elems(cur) <= Elems(t)
      invariant lo <= s < lo + w && KeyFor(k, s, lo, w)
      invariant SameSizeNode(cur, s, lo, w) == SameSizeNode(t, s, BinBase(i), BinWidth(i))
      invariant InsertSlot(cur, s, lo, w, c) == InsertSlot(t, s, BinBase(i), BinWidth(i), TB(i))
      invariant InsertParent(cur, s, lo, w, par) == InsertParent(t, s, BinBase(i), BinWidth(i), TB(i))
      decreases cur
    {
      LargeSub(bn, Elems(t), Elems(cur));
      WalkStep(m, tt, par, i, cur, lo, w, bn);
      if ChunkSize(Get(m, tt + HEAD)) == s {
        return tt, c, true;
      }
      KeyStep(k, s, lo, w);
      c := tt + (if k / TWO63 == 0 then CHILD0 else CHILD1);
      k := U64(2 * k);
      par := tt;
      if s < lo + w / 2 {
        cur, w := cur.left, w / 2;
      } else {
        cur, lo, w := cur.right, lo + w / 2, w / 2;
      }
      if Get(m, c) == 0 {
        return tt, c, false;
      }
      tt := Get(m, c);
    }
  }

  lemma LargeSub(bn: map<int, int>, s: set<int>, s': set<int>)
    requires LargeOnly(bn, s) && s' <= s
    ensures LargeOnly(bn, s')
  {
  }

  lemma ChildWords(m: Mem, p: int, par: int, i: int, t: Trie, bn: map<int, int>)
    requires t.Node? && TreeRep(m, p, par, i, t) && Readable(m, bn) && LargeOnly(bn, Elems(t))
    ensures p in bn && p == HeadOf(t) && p != 0 && p + CHILD0 in m && p + CHILD1 in m
    ensures LargeOnly(bn, Elems(t.left)) && LargeOnly(bn, Elems(t.right))
    ensures TreeRep(m, W(m, p + CHILD0), p, i, t.left) && TreeRep(m, W(m, p + CHILD1), p, i, t.right)
    ensures (W(m, p + CHILD0) == 0 <==> t.left.Nil?) && (W(m, p + CHILD1) == 0 <==> t.right.Nil?)
  {
    hide W, NodeRep;
    HeadInElems(m, p, par, i, t);
    ChildNull(m, W(m, p + CHILD0), p, i, t.left);
    ChildNull(m, W(m, p + CHILD1), p, i, t.right);
  }

  /** The search for a replacement in unlink_large_chunk: r is the last leaf below x and rp the slot it hangs from. */
  method FindLastLeaf(m: Mem, x: int, ghost par: int, ghost i: int, ghost n: Trie, ghost bn: map<int, int>)
      returns (r: int, rp: int)
    requires n.Node? && TreeRep(m, x, par, i, n) && Readable(m, bn) && LargeOnly(bn, Elems(n))
    ensures DownChild(n).Nil? ==> r == 0
    ensures DownChild(n).Node? ==>
      r != 0 && r == HeadOf(LastLeaf(DownChild(n))) && rp == LeafSlot(DownChild(n), x + DownOffset(n))
  {
    hide W, TreeRep, Readable, LargeOnly, Elems;
    ChildWords(m, x, par, i, n, bn);
    rp := x + CHILD1;
    r := Get(m, rp);
    if r == 0 {
      rp := x + CHILD0;
      r := Get(m, rp);
    }
    if r != 0 {
      ghost var cur, up := DownChild(n), x;
      ChildWords(m, r, x, i, cur, bn);
      while Get(m, r + CHILD1) != 0 || Get(m, r + CHILD0) != 0
        invariant cur.Node? && TreeRep(m, r, up, i, cur) && LargeOnly(bn, Elems(cur)) && r + CHILD0 in m
        invariant r + CHILD1 in m
        invariant LastLeaf(cur) == LastLeaf(DownChild(n))
        invariant LeafSlot(cur, rp) == LeafSlot(DownChild(n), x + DownOffset(n))
        decreases cur
      {
        ChildWords(m, r, up, i, cur, bn);
        up := r;
        if Get(m, r + CHILD1) != 0 {
          rp := r + CHILD1;
          cur := cur.right;
        } else {
          rp := r + CHILD0;
          cur := cur.left;
        }
        r := Get(m, rp);
        ChildWords(m, r, up, i, cur, bn);
      }
      ChildWords(m, r, up, i, cur, bn);
    }
  }

  // The best-fit search of tmalloc_large

  /** (v, rsize) is the tightest fit met so far among the chunks of s; rsize starts as -nb. */
  ghost predicate Candidate(v: int, rsize: int, nb: int, s: set<int>, bn: map<int, int>) {
    if v == 0 then rsize == TWO64 - nb
    else v in s && v in bn && bn[v] >= nb && rsize == bn[v] - nb
  }

  /** Nothing of s that fits is tighter than the candidate, unless it is no smaller than the least of tree t. */
  ghost predicate Covered(v: int, rsize: int, nb: int, s: set<int>, t: Trie, bn: map<int, int>) {
    forall p :: p in s && p in bn && bn[p] >= nb ==> (v != 0 && rsize <= bn[p] - nb) || (t.Node? && MinOf(t) <= bn[p])
  }

  /** As Covered, but leaving out the chunks of the subtree still to be searched. */
  ghost predicate CoveredBut(v: int, rsize: int, nb: int, s: set<int>, out: set<int>, t: Trie, bn: map<int, int>) {
    forall p :: p in s && p !in out && p in bn && bn[p] >= nb ==>
      (v != 0 && rsize <= bn[p] - nb) || (t.Node? && MinOf(t) <= bn[p])
  }

  ghost predicate AllFit(nb: int, s: set<int>, bn: map<int, int>) {
    forall p :: p in s ==> p in bn && bn[p] >= nb
  }

  /** Looking at one node: it fits and may be tighter, or wrap-around makes its remainder huge. */
  lemma LookAt(v: int, rsize: int, nb: int, s: set<int>, bn: map<int, int>, p: int)
    requires Candidate(v, rsize, nb, s, bn) && 0 < nb < TWO64 && p in s && p in bn && 0 < bn[p] < TWO64 && p != 0
    requires v != 0 ==> bn[v] < TWO64
    ensures var trem := U64(bn[p] - nb);
      && (trem < rsize ==> Candidate(p, trem, nb, s, bn) && bn[p] >= nb)
      && (trem >= rsize ==> bn[p] < nb || (v != 0 && rsize <= bn[p] - nb))
  {
  }

  /** Going left: the right subtree, all larger than nb, becomes the best untaken one. */
  lemma GoLeft(v: int, rsize: int, nb: int, s: set<int>, cur: Trie, r: Trie, lo: int, w: int, rlo: int,
               bn: map<int, int>)
    requires cur.Node? && w > 1 && TrieOk(cur, lo, w, bn) && nb < lo + w / 2
    requires CoveredBut(v, rsize, nb, s, Elems(cur), r, bn) && (r.Node? ==> MinOf(r) >= lo + w)
    requires cur.size < nb || (v != 0 && rsize <= cur.size - nb)
    ensures var r' := if cur.right.Node? then cur.right else r;
      && CoveredBut(v, rsize, nb, s, Elems(cur.left), r', bn)
      && (r'.Node? ==> MinOf(r') >= lo + w / 2)
      && (cur.right.Node? ==> AllFit(nb, Elems(cur.right), bn))
  {
    hide TrieOk;
    var h := w / 2;
    NodeParts(cur, lo, w, bn);
    if cur.right.Node? {
      MinOfIsLeast(cur.right, lo + h, h, bn);
      ElemsInRange(cur.right, lo + h, h, bn);
    }
  }

  /** Going right: everything in the left subtree is smaller than nb. */
  lemma GoRight(v: int, rsize: int, nb: int, s: set<int>, cur: Trie, r: Trie, lo: int, w: int, bn: map<int, int>)
    requires cur.Node? && w > 1 && TrieOk(cur, lo, w, bn) && nb >= lo + w / 2
    requires CoveredBut(v, rsize, nb, s, Elems(cur), r, bn)
    requires cur.size < nb || (v != 0 && rsize <= cur.size - nb)
    ensures CoveredBut(v, rsize, nb, s, Elems(cur.right), r, bn)
  {
    hide TrieOk;
    NodeParts(cur, lo, w, bn);
    ElemsInRange(cur.left, lo, w / 2, bn);
  }

  lemma NodeParts(t: Trie, lo: int, w: int, bn: map<int, int>)
    requires t.Node? && TrieOk(t, lo, w, bn)
    ensures TrieOk(t.left, lo, w / 2, bn) && TrieOk(t.right, lo + w / 2, w / 2, bn)
    ensures forall p :: p in t.ring ==> p in bn && bn[p] == t.size
    ensures forall p :: p in Elems(t) <==> p in t.ring || p in Elems(t.left) || p in Elems(t.right)
  {
  }

  lemma NarrowExact(nb: int, size: int, lo: int, w: int)
    requires IsPow2(w) && lo <= nb < lo + w && lo <= size < lo + w && size != nb
    ensures w > 1
  {
  }

  lemma StartSearch(m: Mem, nb: int, s: set<int>, i: int, bn: map<int, int>)
    requires 0 < nb < TWO64
    ensures Candidate(0, U64(-nb), nb, s, bn) && CoveredBut(0, U64(-nb), nb, s, s, Nil, bn)
    ensures AllFit(nb, Elems(Nil), bn) && Elems(Nil) <= s && Walkable(m, 0, 0, i, Nil, 0, 1, bn)
  {
  }

  lemma Tighter(v: int, rsize: int, v': int, rsize': int, nb: int, s: set<int>, out: set<int>, r: Trie,
                bn: map<int, int>)
    requires CoveredBut(v, rsize, nb, s, out, r, bn) && v' != 0 && rsize' < rsize
    ensures CoveredBut(v', rsize', nb, s, out, r, bn)
  {
  }

  lemma ExactCovers(v: int, nb: int, s: set<int>, t: Trie, bn: map<int, int>)
    requires v != 0
    ensures Covered(v, 0, nb, s, t, bn)
  {
  }

  lemma CoveredAll(v: int, rsize: int, nb: int, s: set<int>, cur: Trie, r: Trie, bn: map<int, int>)
    requires CoveredBut(v, rsize, nb, s, Elems(cur), r, bn) && cur.Nil?
    ensures Covered(v, rsize, nb, s, r, bn)
  {
  }

  /** The two children of a node are different chunks. */
  lemma ChildrenDiffer(m: Mem, p: int, par: int, i: int, t: Trie, lo: int, w: int, bn: map<int, int>)
    requires t.Node? && w > 1 && Walkable(m, p, par, i, t, lo, w, bn)
    ensures TrieOk(t, lo, w, bn)
    ensures p in Elems(t)
    ensures t.left.Node? && t.right.Node? ==> W(m, p + CHILD0) != W(m, p + CHILD1)
  {
    hide W, NodeRep, TrieOk;
    HeadInElems(m, p, par, i, t);
    NodeParts(t, lo, w, bn);
    if t.left.Node? && t.right.Node? {
      HeadInElems(m, W(m, p + CHILD0), p, i, t.left);
      HeadInElems(m, W(m, p + CHILD1), p, i, t.right);
      ElemsInRange(t.left, lo, w / 2, bn);
      ElemsInRange(t.right, lo + w / 2, w / 2, bn);
    }
  }

  lemma WalkHead(m: Mem, p: int, par: int, i: int, t: Trie, lo: int, w: int, bn: map<int, int>)
    requires t.Node? && Walkable(m, p, par, i, t, lo, w, bn)
    ensures p in Elems(t)
  {
    hide W, NodeRep;
    HeadInElems(m, p, par, i, t);
  }

  /** Where the walk stands: the current subtree, and the deepest right subtree not taken. */
  datatype Walk = Walk(par: int, cur: Trie, lo: int, w: int, rpar: int, r: Trie, rlo: int, rw: int)

  ghost predicate Searching(m: Mem, i: int, nb: int, s: set<int>, bn: map<int, int>, v: int, rsize: int, t: int, k: int,
                            rst: int, g: Walk) {
    && g.cur.Node? && Walkable(m, t, g.par, i, g.cur, g.lo, g.w, bn) && Elems(g.cur) <= s
    && g.lo <= nb < g.lo + g.w && KeyFor(k, nb, g.lo, g.w)
    && Walkable(m, rst, g.rpar, i, g.r, g.rlo, g.rw, bn) && Elems(g.r) <= s && (rst == 0 <==> g.r.Nil?)
    && AllFit(nb, Elems(g.r), bn) && (g.r.Node? ==> MinOf(g.r) >= g.lo + g.w)
    && Candidate(v, rsize, nb, s, bn) && CoveredBut(v, rsize, nb, s, Elems(g.cur), g.r, bn)
  }

  ghost predicate SearchContext(m: Mem, nb: int, s: set<int>, bn: map<int, int>) {
    && Readable(m, bn) && LargeOnly(bn, s) && 0 < nb < TWO64
    && forall p :: p in bn ==> bn[p] < TWO64
  }

  lemma LookStep(m: Mem, i: int, nb: int, s: set<int>, bn: map<int, int>, v: int, rsize: int, t: int, k: int, rst: int,
                 g: Walk)
    requires SearchContext(m, nb, s, bn) && Searching(m, i, nb, s, bn, v, rsize, t, k, rst, g)
    ensures t != 0 && t + HEAD in m && t + CHILD0 in m && t + CHILD1 in m
    ensures var trem := U64(ChunkSize(W(m, t + HEAD)) - nb);
      var v', rsize' := if trem < rsize then t else v, if trem < rsize then trem else rsize;
      && Searching(m, i, nb, s, bn, v', rsize', t, k, rst, g)
      && (rsize' == 0 ==> v' != 0)
      && (trem != 0 ==> g.w > 1 && (g.cur.size < nb || (v' != 0 && rsize' <= g.cur.size - nb)))
  {
    hide W, KeyFor, TreeRep, TrieOk, IsPow2, Elems, MinOf, CoveredBut, AllFit, Walkable, Readable, LargeOnly;
    LargeSub(bn, s, Elems(g.cur));
    WalkStep(m, t, g.par, i, g.cur, g.lo, g.w, bn);
    WalkHead(m, t, g.par, i, g.cur, g.lo, g.w, bn);
    LookAt(v, rsize, nb, s, bn, t);
    var trem := U64(ChunkSize(W(m, t + HEAD)) - nb);
    if trem < rsize {
      Tighter(v, rsize, t, trem, nb, s, Elems(g.cur), g.r, bn);
    }
    if trem != 0 {
      WalkPow2(m, t, g.par, i, g.cur, g.lo, g.w, bn);
      NarrowExact(nb, g.cur.size, g.lo, g.w);
    }
  }

  lemma WalkPow2(m: Mem, p: int, par: int, i: int, t: Trie, lo: int, w: int, bn: map<int, int>)
    requires Walkable(m, p, par, i, t, lo, w, bn)
    ensures IsPow2(w) && TrieOk(t, lo, w, bn) && TreeRep(m, p, par, i, t) && (p == 0 <==> t.Nil?)
  {
    hide W, NodeRep;
    ChildNull(m, p, par, i, t);
  }

  /** One step down: the direction is the sign bit of the key, and a right subtree passed by is remembered. */
  ghost function StepWalk(nb: int, t: int, g: Walk): Walk
    requires g.cur.Node?
  {
    var h := g.w / 2;
    if nb < g.lo + h then
      if g.cur.right.Node? then Walk(t, g.cur.left, g.lo, h, t, g.cur.right, g.lo + h, h)
      else g.(par := t, cur := g.cur.left, w := h)
    else g.(par := t, cur := g.cur.right, lo := g.lo + h, w := h)
  }

  lemma MoveStep(m: Mem, i: int, nb: int, s: set<int>, bn: map<int, int>, v: int, rsize: int, t: int, k: int, rst: int,
                 g: Walk)
    requires SearchContext(m, nb, s, bn) && Searching(m, i, nb, s, bn, v, rsize, t, k, rst, g) && g.w > 1
    requires g.cur.size < nb || (v != 0 && rsize <= g.cur.size - nb)
    ensures var rt, t' := W(m, t + CHILD1), W(m, t + (if k / TWO63 == 0 then CHILD0 else CHILD1));
      var rst' := if rt != 0 && rt != t' then rt else rst;
      var g' := StepWalk(nb, t, g);
      && (t' != 0 ==> Searching(m, i, nb, s, bn, v, rsize, t', U64(2 * k), rst', g'))
      && (t' == 0 ==>
        && Candidate(v, rsize, nb, s, bn) && Covered(v, rsize, nb, s, g'.r, bn) && AllFit(nb, Elems(g'.r), bn)
        && Walkable(m, rst', g'.rpar, i, g'.r, g'.rlo, g'.rw, bn) && Elems(g'.r) <= s && (rst' == 0 <==> g'.r.Nil?))
  {
    hide W, KeyFor, TreeRep, TrieOk, IsPow2, Elems, MinOf, CoveredBut, Covered, AllFit, Walkable, Readable, LargeOnly,
      Candidate, U64;
    LargeSub(bn, s, Elems(g.cur));
    WalkStep(m, t, g.par, i, g.cur, g.lo, g.w, bn);
    KeyStep(k, nb, g.lo, g.w);
    ChildrenDiffer(m, t, g.par, i, g.cur, g.lo, g.w, bn);
    var g' := StepWalk(nb, t, g);
    if nb < g.lo + g.w / 2 {
      GoLeft(v, rsize, nb, s, g.cur, g.r, g.lo, g.w, g.rlo, bn);
    } else {
      GoRight(v, rsize, nb, s, g.cur, g.r, g.lo, g.w, bn);
    }
    if g'.cur.Nil? {
      CoveredAll(v, rsize, nb, s, g'.cur, g'.r, bn);
    }
  }

  /** The walk down the bin of nb: the best fit met on the way, and the deepest right subtree not taken. */
  method SearchBin(m: Mem, root: int, i: int, nb: int, ghost tree: Trie, ghost bn: map<int, int>)
    returns (v: int, rsize: int, t: int, ghost r: Trie, ghost par: int, ghost rlo: int, ghost rw: int)
    requires 0 <= i <= 31 && tree.Node? && Walkable(m, root, TB(i), i, tree, BinBase(i), BinWidth(i), bn)
    requires SearchContext(m, nb, Elems(tree), bn) && 0 < nb < TWO64 && BinBase(i) <= nb < BinBase(i) + BinWidth(i)
    ensures Candidate(v, rsize, nb, Elems(tree), bn) && Covered(v, rsize, nb, Elems(tree), r, bn)
    ensures Walkable(m, t, par, i, r, rlo, rw, bn) && Elems(r) <= Elems(tree)
    ensures rsize == 0 || AllFit(nb, Elems(r), bn)
    ensures t == 0 <==> r.Nil?
  {
    hide W, BinBase, BinWidth, KeyFor, U64, TreeRep, TrieOk, IsPow2, Walkable, Elems, LeftShift, Pow2,
      Candidate, Covered, CoveredBut, AllFit, MinOf, SearchContext;
    v, rsize, t := 0, U64(-nb), root;
    var k := U64(nb * Pow2(LeftShift(i)));
    var rst := 0;
    ghost var s := Elems(tree);
    ghost var g := Walk(TB(i), tree, BinBase(i), BinWidth(i), 0, Nil, 0, 1);
    StartSearch(m, nb, s, i, bn);
    KeyAtRoot(nb, i);
    while true
      invariant rsize > 0 && Searching(m, i, nb, s, bn, v, rsize, t, k, rst, g)
      decreases g.cur
    {
      hide Searching;
      LookStep(m, i, nb, s, bn, v, rsize, t, k, rst, g);
      var trem := U64(ChunkSize(Get(m, t + HEAD)) - nb);
      if trem < rsize {
        v := t;
        rsize := trem;
        if rsize == 0 {
          ExactFit(m, i, nb, s, bn, v, t, k, rst, g);
          return v, rsize, t, g.cur, g.par, g.lo, g.w;
        }
      }
      MoveStep(m, i, nb, s, bn, v, rsize, t, k, rst, g);
      var rt := Get(m, t + CHILD1);
      ghost var g' := StepWalk(nb, t, g);
      t := Get(m, t + (if k / TWO63 == 0 then CHILD0 else CHILD1));
      if rt != 0 && rt != t {
        rst := rt;
      }
      g := g';
      if t == 0 {
        t := rst;
        return v, rsize, t, g.r, g.rpar, g.rlo, g.rw;
      }
      k := U64(2 * k);
    }
  }

  lemma ExactFit(m: Mem, i: int, nb: int, s: set<int>, bn: map<int, int>, v: int, t: int, k: int, rst: int, g: Walk)
    requires Searching(m, i, nb, s, bn, v, 0, t, k, rst, g) && v != 0
    ensures Candidate(v, 0, nb, s, bn) && Covered(v, 0, nb, s, g.cur, bn)
    ensures Walkable(m, t, g.par, i, g.cur, g.lo, g.w, bn) && Elems(g.cur) <= s && (t == 0 <==> g.cur.Nil?)
  {
    hide TrieOk, TreeRep, Elems, CoveredBut;
    ExactCovers(v, nb, s, g.cur, bn);
    WalkPow2(m, t, g.par, i, g.cur, g.lo, g.w, bn);
  }

  /** Down the leftmost path: either the node just seen was the least, or the least lies further down. */
  lemma LeftmostCovers(v: int, rsize: int, v': int, rsize': int, nb: int, s: set<int>, cur: Trie, bn: map<int, int>)
    requires cur.Node? && Covered(v, rsize, nb, s, cur, bn) && rsize' <= rsize && (v != 0 ==> v' != 0)
    requires (cur.size >= nb && v' != 0 && rsize' <= cur.size - nb) || (v' != 0 && rsize' == 0)
    ensures Covered(v', rsize', nb, s, LeftmostChild(cur), bn)
  {
  }

  /** The last loop of tmalloc_large: the smallest chunk on the leftmost path of the subtree at t. */
  method FindSmallest(m: Mem, t0: int, v0: int, rsize0: int, nb: int, ghost par0: int, ghost i: int, ghost tree: Trie,
                      ghost lo0: int, ghost w0: int, ghost s: set<int>, ghost bn: map<int, int>)
    returns (v: int, rsize: int)
    requires Walkable(m, t0, par0, i, tree, lo0, w0, bn) && Elems(tree) <= s && SearchContext(m, nb, s, bn)
    requires Candidate(v0, rsize0, nb, s, bn) && Covered(v0, rsize0, nb, s, tree, bn)
    requires rsize0 == 0 || AllFit(nb, Elems(tree), bn)
    requires 0 < nb < TWO64
    ensures Candidate(v, rsize, nb, s, bn) && Covered(v, rsize, nb, s, Nil, bn)
  {
    hide W, U64, TreeRep, TrieOk, IsPow2, Elems, Walkable, Candidate, Covered, AllFit, MinOf, SearchContext;
    v, rsize := v0, rsize0;
    var t := t0;
    ghost var g := Walk(par0, tree, lo0, w0, 0, Nil, 0, 1);
    WalkPow2(m, t, g.par, i, g.cur, g.lo, g.w, bn);
    while t != 0
      invariant Leftward(m, i, nb, s, bn, v, rsize, t, g)
      decreases g.cur
    {
      hide Leftward;
      LeftwardStep(m, i, nb, s, bn, v, rsize, t, g);
      var trem := U64(ChunkSize(Get(m, t + HEAD)) - nb);
      if trem < rsize {
        rsize := trem;
        v := t;
      }
      ghost var c := LeftmostChild(g.cur);
      ghost var lo := if g.cur.left.Node? || g.w <= 1 then g.lo else g.lo + g.w / 2;
      g := Walk(t, c, lo, if g.w > 1 then g.w / 2 else 1, 0, Nil, 0, 1);
      t := if Get(m, t + CHILD0) != 0 then Get(m, t + CHILD0) else Get(m, t + CHILD1);
    }
    LeftwardDone(m, i, nb, s, bn, v, rsize, g);
  }

  ghost predicate Leftward(m: Mem, i: int, nb: int, s: set<int>, bn: map<int, int>, v: int, rsize: int, t: int,
                           g: Walk) {
    && Walkable(m, t, g.par, i, g.cur, g.lo, g.w, bn) && Elems(g.cur) <= s && (t == 0 <==> g.cur.Nil?)
    && Candidate(v, rsize, nb, s, bn) && Covered(v, rsize, nb, s, g.cur, bn)
    && (rsize == 0 || AllFit(nb, Elems(g.cur), bn))
  }

  lemma LeftwardStep(m: Mem, i: int, nb: int, s: set<int>, bn: map<int, int>, v: int, rsize: int, t: int, g: Walk)
    requires SearchContext(m, nb, s, bn) && 0 < nb < TWO64 && t != 0 && Leftward(m, i, nb, s, bn, v, rsize, t, g)
    ensures g.cur.Node? && t + HEAD in m && t + CHILD0 in m && t + CHILD1 in m
    ensures var trem := U64(ChunkSize(W(m, t + HEAD)) - nb);
      var v', rsize' := if trem < rsize then t else v, if trem < rsize then trem else rsize;
      var t' := if W(m, t + CHILD0) != 0 then W(m, t + CHILD0) else W(m, t + CHILD1);
      var lo := if g.cur.left.Node? || g.w <= 1 then g.lo else g.lo + g.w / 2;
      Leftward(m, i, nb, s, bn, v', rsize', t',
               Walk(t, LeftmostChild(g.cur), lo, if g.w > 1 then g.w / 2 else 1, 0, Nil, 0, 1))
  {
    hide W, TreeRep, TrieOk, IsPow2, Elems, MinOf, Covered, Walkable, Readable, LargeOnly;
    LargeSub(bn, s, Elems(g.cur));
    WalkStep(m, t, g.par, i, g.cur, g.lo, g.w, bn);
    WalkHead(m, t, g.par, i, g.cur, g.lo, g.w, bn);
    LookAt(v, rsize, nb, s, bn, t);
    var trem := U64(ChunkSize(W(m, t + HEAD)) - nb);
    var v', rsize' := if trem < rsize then t else v, if trem < rsize then trem else rsize;
    LeftmostCovers(v, rsize, v', rsize', nb, s, g.cur, bn);
    if g.w <= 1 {
      SingletonLeaf(m, t, g.par, i, g.cur, g.lo, g.w, bn);
    }
  }

  /** A subtree that spans a single size has no children. */
  lemma SingletonLeaf(m: Mem, p: int, par: int, i: int, t: Trie, lo: int, w: int, bn: map<int, int>)
    requires t.Node? && w <= 1 && Walkable(m, p, par, i, t, lo, w, bn)
    ensures t.left.Nil? && t.right.Nil? && W(m, p + CHILD0) == 0 && W(m, p + CHILD1) == 0
    ensures Walkable(m, 0, p, i, Nil, lo, 1, bn)
  {
    hide W, NodeRep;
    NarrowIsNil(t.left, lo, bn);
    NarrowIsNil(t.right, lo, bn);
    ChildNull(m, W(m, p + CHILD0), p, i, t.left);
    ChildNull(m, W(m, p + CHILD1), p, i, t.right);
  }

  lemma LeftwardDone(m: Mem, i: int, nb: int, s: set<int>, bn: map<int, int>, v: int, rsize: int, g: Walk)
    requires Leftward(m, i, nb, s, bn, v, rsize, 0, g)
    ensures Candidate(v, rsize, nb, s, bn) && Covered(v, rsize, nb, s, Nil, bn)
  {
  }
}
