/** Accounting: the footprint is the sum of the segment sizes and cannot overflow a word. */
module HeapSpace {
  import opened HeapState
  import opened SegAdd
  import opened SegDrop
  import opened SegPrepend
  import opened SegTop
  import opened Tiles
  import opened Words

  ghost predicate DistinctIn(order: seq<nat>, g: Segs) {
    && (forall j :: 0 <= j < |order| ==> order[j] in g)
    && forall j, k :: 0 <= j < k < |order| ==> order[j] != order[k]
  }

  lemma {:induction false} FootprintSame(g: Segs, g': Segs, order: seq<nat>)
    requires forall j :: 0 <= j < |order| ==> order[j] in g && order[j] in g' && g'[order[j]].size == g[order[j]].size
    ensures Footprint(g', order) == Footprint(g, order)
  {
    if order != [] {
      forall j | 0 <= j < |order[1..]|
        ensures var h := order[1..][j]; h in g && h in g' && g'[h].size == g[h].size
      {
        assert order[1..][j] == order[j + 1];
      }
      FootprintSame(g, g', order[1..]);
    }
  }

  /** Taking one segment out of the list takes its size out of the sum. */
  lemma {:induction false} FootprintWithout(g: Segs, order: seq<nat>, k: int)
    requires 0 <= k < |order| && order[k] in g
    ensures Footprint(g, order) == g[order[k]].size + Footprint(g, Skip(order, k))
  {
    if k == 0 {
      assert Skip(order, 0) == order[1..];
    } else {
      assert order[1..][k - 1] == order[k];
      FootprintWithout(g, order[1..], k - 1);
      assert Skip(order, k)[0] == order[0];
      assert Skip(order, k)[1..] == Skip(order[1..], k - 1);
    }
  }

  /** Changing the size of one segment changes the sum by as much. */
  lemma FootprintChange(g: Segs, order: seq<nat>, k: int, sg: Seg)
    requires DistinctIn(order, g) && 0 <= k < |order|
    ensures Footprint(g[order[k] := sg], order) == Footprint(g, order) + sg.size - g[order[k]].size
  {
    var g' := g[order[k] := sg];
    FootprintWithout(g, order, k);
    FootprintWithout(g', order, k);
    forall j | 0 <= j < |Skip(order, k)|
      ensures var h := Skip(order, k)[j]; h in g && h in g' && g'[h].size == g[h].size
    {
      SkipAt(order, k, j);
    }
    FootprintSame(g, g', Skip(order, k));
  }

  lemma OrderDistinct(s: State)
    requires ShapeOk(s)
    ensures DistinctIn(s.order, s.g)
  {
    hide ShapeOk;
    OrderIs(s);
  }

  lemma FootprintResized(s: State, delta: int)
    requires ShapeOk(s) && HasTop(s)
    ensures Footprint(Resized(s, delta).g, s.order) == Footprint(s.g, s.order) + delta
  {
    hide ShapeOk, Footprint;
    OrderDistinct(s);
    FootprintChange(s.g, s.order, 0, Resized(s, delta).g[s.order[0]]);
  }

  lemma FootprintResizedHere(m: Mem, s: State, delta: int)
    requires HeapOk(m, s) && HasTop(s)
    ensures Footprint(Resized(s, delta).g, s.order) == Footprint(s.g, s.order) + delta
  {
    hide HeapOk, ShapeOk, Footprint;
    ShapeOf(m, s);
    FootprintResized(s, delta);
  }

  lemma FootprintPrepended(s: State, h: nat, size: int)
    requires ShapeOk(s) && h in s.g
    ensures Footprint(Prepended(s, h, size).g, s.order) == Footprint(s.g, s.order) + size
  {
    hide ShapeOk, Footprint;
    OrderDistinct(s);
    OrderIn(s);
    var k :| 0 <= k < |s.order| && s.order[k] == h;
    FootprintChange(s.g, s.order, k, Prepended(s, h, size).g[h]);
  }

  lemma FootprintPrependedHere(m: Mem, s: State, h: nat, size: int)
    requires HeapOk(m, s) && h in s.g
    ensures Footprint(Prepended(s, h, size).g, s.order) == Footprint(s.g, s.order) + size
  {
    hide HeapOk, ShapeOk, Footprint;
    ShapeOf(m, s);
    FootprintPrepended(s, h, size);
  }

  lemma FootprintAddedHere(m: Mem, s: State, hn: nat, base: int, size: int, exec: int)
    requires HeapOk(m, s) && HasTop(s) && hn !in s.g
    ensures var t := Added(s, hn, base, size, exec); Footprint(t.g, t.order) == Footprint(s.g, s.order) + size
  {
    hide HeapOk, ShapeOk, Footprint;
    ShapeOf(m, s);
    FootprintAdded(s, hn, base, size, exec);
  }

  lemma FootprintAdded(s: State, hn: nat, base: int, size: int, exec: int)
    requires ShapeOk(s) && HasTop(s) && hn !in s.g
    ensures var t := Added(s, hn, base, size, exec); Footprint(t.g, t.order) == Footprint(s.g, s.order) + size
  {
    hide ShapeOk;
    OrderDistinct(s);
    var t := Added(s, hn, base, size, exec);
    assert t.order[1..] == s.order;
    forall j | 0 <= j < |s.order|
      ensures s.order[j] in s.g && s.order[j] in t.g && t.g[s.order[j]].size == s.g[s.order[j]].size
    {
    }
    FootprintSame(s.g, t.g, s.order);
  }

  lemma FootprintDropped(s: State, k: int)
    requires ShapeOk(s) && Droppable(s, k)
    ensures var t := Dropped(s, k); Footprint(t.g, t.order) == Footprint(s.g, s.order) - s.g[s.order[k]].size
  {
    hide ShapeOk, Footprint;
    OrderDistinct(s);
    var t := Dropped(s, k);
    FootprintWithout(s.g, s.order, k);
    forall j | 0 <= j < |Skip(s.order, k)|
      ensures var h := Skip(s.order, k)[j]; h in s.g && h in t.g && t.g[h].size == s.g[h].size
    {
      SkipAt(s.order, k, j);
    }
    FootprintSame(s.g, t.g, Skip(s.order, k));
  }

  // The sum of disjoint segments fits the address space

  /** The segments of a list that end at or before x, or the others. */
  function Side(g: Segs, order: seq<nat>, x: int, below: bool): seq<nat> {
    if order == [] then []
    else if order[0] in g && (g[order[0]].base + g[order[0]].size <= x) == below
    then [order[0]] + Side(g, order[1..], x, below)
    else Side(g, order[1..], x, below)
  }

  lemma {:induction false} SideMembers(g: Segs, order: seq<nat>, x: int, below: bool)
    requires DistinctIn(order, g)
    ensures var r := Side(g, order, x, below);
      && DistinctIn(r, g) && |r| <= |order|
      && (forall h :: h in r <==> h in order && (g[h].base + g[h].size <= x) == below)
  {
    if order != [] {
      var rest := order[1..];
      assert DistinctIn(rest, g) by {
        assert forall j :: 0 <= j < |rest| ==> rest[j] == order[j + 1];
      }
      SideMembers(g, rest, x, below);
      var r := Side(g, rest, x, below);
      assert order[0] !in rest;
      assert order == [order[0]] + rest;
    }
  }

  lemma {:induction false} SideSums(g: Segs, order: seq<nat>, x: int)
    requires forall h :: h in order ==> h in g
    ensures Footprint(g, order) == Footprint(g, Side(g, order, x, true)) + Footprint(g, Side(g, order, x, false))
  {
    if order != [] {
      SideSums(g, order[1..], x);
      var b := g[order[0]].base + g[order[0]].size <= x;
      assert Side(g, order, x, b)[1..] == Side(g, order[1..], x, b);
    }
  }

  ghost predicate Apart(g: Segs, order: seq<nat>, lo: int, hi: int) {
    && (forall h :: h in order ==> h in g && lo <= g[h].base && g[h].size > 0 && g[h].base + g[h].size <= hi)
    && forall h, k :: h in order && k in order && h != k ==>
       g[h].base + g[h].size <= g[k].base || g[k].base + g[k].size <= g[h].base
  }

  lemma {:induction false} FootprintFits(g: Segs, order: seq<nat>, lo: int, hi: int)
    requires DistinctIn(order, g) && Apart(g, order, lo, hi) && lo <= hi
    ensures 0 <= Footprint(g, order) <= hi - lo
    decreases |order|
  {
    if order != [] {
      var h := order[0];
      var rest := order[1..];
      assert forall j :: 0 <= j < |rest| ==> rest[j] == order[j + 1];
      assert DistinctIn(rest, g);
      assert h in order && forall k :: k in rest ==> k in order && k != h;
      var x := g[h].base;
      SideMembers(g, rest, x, true);
      SideMembers(g, rest, x, false);
      SideSums(g, rest, x);
      FootprintFits(g, Side(g, rest, x, true), lo, x);
      FootprintFits(g, Side(g, rest, x, false), x + g[h].size, hi);
    }
  }

  /** The footprint of a heap, with room for one more region that overlaps no segment, is below 2^64. */
  lemma FootprintBound(s: State, base: int, size: int)
    requires ShapeOk(s) && 0 <= base && 0 <= size && base + size < TWO64
    requires forall k :: k in s.g ==> s.g[k].base + s.g[k].size <= base || base + size <= s.g[k].base
    ensures 0 <= Footprint(s.g, s.order) && Footprint(s.g, s.order) + size < TWO64
  {
    hide ShapeOk, Footprint, Side;
    OrderDistinct(s);
    OrderIn(s);
    SegsOf(s);
    forall h | h in s.g ensures GM_END <= s.g[h].base && s.g[h].size > 0 && s.g[h].base + s.g[h].size < TWO64 {
      assert SegOk(s.g[h]);
    }
    SideMembers(s.g, s.order, base, true);
    SideMembers(s.g, s.order, base, false);
    SideSums(s.g, s.order, base);
    FootprintFits(s.g, Side(s.g, s.order, base, true), 0, base);
    FootprintFits(s.g, Side(s.g, s.order, base, false), base + size, TWO64 - 1);
  }
}
