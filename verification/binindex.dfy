/** Sizes, bin indices and the bit tricks that compute them. */
module BinIndex {
  import opened Words

  function Pow2(n: int): (r: nat)
    ensures r >= 1
  {
    if n <= 0 then 1 else 2 * Pow2(n - 1)
  }

  lemma {:induction false} Pow2Add(a: nat, b: nat)
    ensures Pow2(a) * Pow2(b) == Pow2(a + b)
    decreases b
  {
    if b > 0 {
      Pow2Add(a, b - 1);
      assert Pow2(a) * Pow2(b) == 2 * (Pow2(a) * Pow2(b - 1));
    }
  }

  /** v & b for a power of two b. */
  function AndBit(v: int, b: int): int
    requires b > 0
  {
    if (v / b) % 2 == 1 then b else 0
  }

  function U32(x: int): int {
    x % TWO32
  }

  /** y << k on unsigned int, for the four shift amounts that occur. */
  function Shl32(y: int, k: int): int {
    U32(y * Pow2(k))
  }

  /** The branch-free floor-log2 inside compute_tree_index, for 0 < x <= 0xFFFF. */
  function Log2Trick(x: int): int {
    var n0 := AndBit(U32(x - 0x100) / 0x10000, 8);
    var y1 := Shl32(x, n0);
    var k1 := AndBit(U32(y1 - 0x1000) / 0x10000, 4);
    var y2 := Shl32(y1, k1);
    var k2 := AndBit(U32(y2 - 0x4000) / 0x10000, 2);
    var y3 := Shl32(y2, k2);
    14 - (n0 + k1 + k2) + y3 / 0x8000
  }

  /** compute_tree_index. */
  function TreeIndex(s: int): int {
    var x := s / 256;
    if x <= 0 then 0
    else if x > 0xFFFF then 31
    else
      var k := Log2Trick(x);
      2 * k + (s / Pow2(k + 7)) % 2
  }

  /** minsize_for_tree_index: the smallest size kept in bin i. */
  function MinSizeForIndex(i: int): int {
    Pow2(i / 2 + 8) + (i % 2) * Pow2(i / 2 + 7)
  }

  /** Subtracting a threshold borrows out of the low half exactly below it, which sets every high bit. */
  lemma BorrowSelects(y: int, t: int, b: int)
    requires 0 <= y <= 0xFFFF && 0 < t <= 0x10000
    requires b == 8 || b == 4 || b == 2
    ensures AndBit(U32(y - t) / 0x10000, b) == if y < t then b else 0
  {
    if y < t {
      assert U32(y - t) == y - t + TWO32;
      assert U32(y - t) / 0x10000 == 0xFFFF;
    } else {
      assert U32(y - t) == y - t;
      assert U32(y - t) / 0x10000 == 0;
    }
  }

  lemma SmallPowers()
    ensures Pow2(0) == 1 && Pow2(1) == 2 && Pow2(2) == 4 && Pow2(3) == 8 && Pow2(4) == 16
    ensures Pow2(5) == 32 && Pow2(6) == 64 && Pow2(7) == 128 && Pow2(8) == 256 && Pow2(9) == 512
    ensures Pow2(10) == 1024 && Pow2(11) == 2048 && Pow2(12) == 4096 && Pow2(13) == 8192
    ensures Pow2(14) == 16384 && Pow2(15) == 32768
  {
    assert Pow2(8) == 256;
    assert Pow2(15) == 128 * Pow2(8);
  }

  /** One step of the ladder: shift y up by b exactly when it lies below t. */
  lemma LadderStep(y: int, t: int, b: int)
    requires 0 <= y <= 0xFFFF && 0 < t <= 0x10000
    requires b == 8 || b == 4 || b == 2
    ensures AndBit(U32(y - t) / 0x10000, b) == if y < t then b else 0
    ensures Shl32(y, AndBit(U32(y - t) / 0x10000, b)) ==
      if y < t then (if b == 8 then 256 * y else if b == 4 then 16 * y else 4 * y) else y
  {
    hide AndBit;
    BorrowSelects(y, t, b);
    SmallPowers();
  }

  lemma Log2TrickIsLadder(x: int)
    requires 0 < x <= 0xFFFF
    ensures Log2Trick(x) == Ladder(x)
  {
    hide AndBit, Pow2, Shl32, U32;
    LadderStep(x, 0x100, 8);
    var y1 := if x < 0x100 then 256 * x else x;
    LadderStep(y1, 0x1000, 4);
    var y2 := if y1 < 0x1000 then 16 * y1 else y1;
    LadderStep(y2, 0x4000, 2);
  }

  /** The sixteen outcomes, each a linear fact. */
  lemma LadderIsFloorLog2(x: int, k: int)
    requires 0 < x <= 0xFFFF && k == Ladder(x)
    ensures 0 <= k <= 15
    ensures Pow2(k) <= x < 2 * Pow2(k)
  {
    SmallPowers();
  }

  /** So the shifts and masks of compute_tree_index find the number of the highest bit. */
  lemma Log2TrickIsFloorLog2(x: int)
    requires 0 < x <= 0xFFFF
    ensures 0 <= Log2Trick(x) <= 15 && Pow2(Log2Trick(x)) <= x < 2 * Pow2(Log2Trick(x))
  {
    hide Log2Trick, Pow2, Ladder;
    Log2TrickIsLadder(x);
    LadderIsFloorLog2(x, Ladder(x));
  }

  /** The same computation with every bit trick resolved. */
  function Ladder(x: int): int {
    var n0 := if x < 0x100 then 8 else 0;
    var y1 := if x < 0x100 then 256 * x else x;
    var k1 := if y1 < 0x1000 then 4 else 0;
    var y2 := if y1 < 0x1000 then 16 * y1 else y1;
    var k2 := if y2 < 0x4000 then 2 else 0;
    var y3 := if y2 < 0x4000 then 4 * y2 else y2;
    14 - (n0 + k1 + k2) + y3 / 0x8000
  }

  lemma MinSizeAt(k: int)
    requires k >= 0
    ensures MinSizeForIndex(2 * k) == 2 * Pow2(k + 7)
    ensures MinSizeForIndex(2 * k + 1) == 3 * Pow2(k + 7)
    ensures MinSizeForIndex(2 * k + 2) == 4 * Pow2(k + 7)
  {
    assert (2 * k) / 2 == k && (2 * k) % 2 == 0;
    assert (2 * k + 1) / 2 == k && (2 * k + 1) % 2 == 1;
    assert (2 * k + 2) / 2 == k + 1 && (2 * k + 2) % 2 == 0;
    assert Pow2(k + 8) == 2 * Pow2(k + 7) && Pow2(k + 9) == 2 * Pow2(k + 8);
  }

  /** compute_tree_index sorts sizes into the ranges that minsize_for_tree_index delimits. */
  lemma TreeIndexRange(s: int)
    requires MIN_LARGE_SIZE <= s < TWO64
    ensures 0 <= TreeIndex(s) <= 31
    ensures MinSizeForIndex(TreeIndex(s)) <= s
    ensures TreeIndex(s) < 31 ==> s < MinSizeForIndex(TreeIndex(s) + 1)
  {
    hide Pow2, Log2Trick, Ladder, MinSizeForIndex;
    var x := s / 256;
    if x > 0xFFFF {
      MinSizeAt(15);
      Pow2Add(15, 7);
      SmallPowers();
    } else {
      var k := Log2Trick(x);
      Log2TrickIsLadder(x);
      LadderIsFloorLog2(x, k);
      HalvesOfPower(s, k);
      MinSizeAt(k);
    }
  }

  /** A size in [2^(k+8), 2^(k+9)) is told apart by its next bit. */
  lemma HalvesOfPower(s: int, k: int)
    requires 0 <= k && Pow2(k) <= s / 256 < 2 * Pow2(k)
    ensures 2 * Pow2(k + 7) <= s < 4 * Pow2(k + 7)
    ensures (s / Pow2(k + 7)) % 2 == if s < 3 * Pow2(k + 7) then 0 else 1
  {
    var u := Pow2(k + 7);
    Pow2Add(k, 7);
    SmallPowers();
    assert u == 128 * Pow2(k);
    DivIs(s, u, if s < 3 * u then 2 else 3);
  }

  lemma MulLe(a: int, b: int, c: int)
    requires a <= b && c >= 0
    ensures a * c <= b * c
  {
    assert (b - a) * c >= 0;
  }

  lemma DivIs(s: int, u: int, q: int)
    requires u > 0 && q * u <= s < (q + 1) * u
    ensures s / u == q
  {
    if s / u < q {
      MulLe(s / u + 1, q, u);
    } else if s / u > q {
      MulLe(q + 1, s / u, u);
    }
  }

  lemma {:induction false} MinSizeMonotone(i: int, j: int)
    requires 0 <= i <= j
    ensures MinSizeForIndex(i) <= MinSizeForIndex(j)
    decreases j - i
  {
    hide MinSizeForIndex, Pow2;
    if i < j {
      MinSizeMonotone(i, j - 1);
      MinSizeStep(j - 1);
    }
  }

  lemma MinSizeStep(i: int)
    requires i >= 0
    ensures MinSizeForIndex(i) < MinSizeForIndex(i + 1)
  {
    hide MinSizeForIndex, Pow2;
    var k := i / 2;
    MinSizeAt(k);
    assert i == 2 * k || i == 2 * k + 1;
  }

  /** Bins are ordered by size: everything in a later bin is larger than everything in an earlier one. */
  lemma IndexOrdersSizes(s: int, t: int)
    requires MIN_LARGE_SIZE <= s < TWO64 && MIN_LARGE_SIZE <= t < TWO64
    requires TreeIndex(s) < TreeIndex(t)
    ensures s < t
  {
    TreeIndexRange(s);
    TreeIndexRange(t);
    MinSizeMonotone(TreeIndex(s) + 1, TreeIndex(t));
  }

  // The range of sizes a tree spans: [BinBase, BinBase + BinWidth), halved at every level.

  function BinBase(i: int): int {
    if i == 31 then 0 else MinSizeForIndex(i)
  }

  function BinWidth(i: int): int {
    if i == 31 then TWO64 else Pow2(i / 2 + 7)
  }

  /** leftshift_for_tree_index. */
  function LeftShift(i: int): int {
    if i == 31 then 0 else 63 - (i / 2 + 6)
  }

  /** A power of two, by halving. */
  ghost predicate IsPow2(w: int)
    decreases w
  {
    w == 1 || (w >= 2 && w % 2 == 0 && IsPow2(w / 2))
  }

  lemma {:induction false} Pow2IsPow2(n: int)
    ensures IsPow2(Pow2(n))
    decreases n
  {
    if n > 0 {
      Pow2IsPow2(n - 1);
    }
  }

  lemma TwoTo64()
    ensures Pow2(64) == TWO64
  {
    SmallPowers();
    Pow2Add(8, 8);
    Pow2Add(16, 16);
    Pow2Add(32, 32);
  }

  lemma BinRange(i: int)
    requires 0 <= i <= 31
    ensures IsPow2(BinWidth(i)) && BinBase(i) >= 0
    ensures forall s :: MIN_LARGE_SIZE <= s < TWO64 && TreeIndex(s) == i ==> BinBase(i) <= s < BinBase(i) + BinWidth(i)
  {
    hide Pow2, IsPow2, TreeIndex, MinSizeForIndex;
    if i == 31 {
      TwoTo64();
      Pow2IsPow2(64);
    } else {
      Pow2IsPow2(i / 2 + 7);
      MinSizeAt(i / 2);
      assert i == 2 * (i / 2) || i == 2 * (i / 2) + 1;
      forall s | MIN_LARGE_SIZE <= s < TWO64 && TreeIndex(s) == i
        ensures BinBase(i) <= s < BinBase(i) + BinWidth(i)
      {
        TreeIndexRange(s);
      }
    }
  }

  /** The shifted key k of size s, seen from a subtree spanning [lo, lo + w): its bits below the subtree's
      range, moved to the top of the word. */
  ghost predicate KeyFor(k: int, s: int, lo: int, w: int) {
    0 <= k < TWO64 && k * w == (s - lo) * TWO64
  }

  /** leftshift_for_tree_index exposes exactly the first bit that the bin does not fix. */
  lemma KeyAtRoot(s: int, i: int)
    requires 0 <= i <= 31 && BinBase(i) <= s < BinBase(i) + BinWidth(i)
    ensures KeyFor(U64(s * Pow2(LeftShift(i))), s, BinBase(i), BinWidth(i))
  {
    hide Pow2, KeyFor, MinSizeForIndex, U64;
    if i == 31 {
      LastKey(s);
    } else {
      TwoTo64();
      Pow2Add(i / 2 + 7, LeftShift(i));
      MinSizeAt(i / 2);
      assert i == 2 * (i / 2) + i % 2;
      KeyFromShift(s, 2 + i % 2, BinWidth(i), Pow2(LeftShift(i)));
    }
  }

  lemma LastKey(s: int)
    requires 0 <= s < TWO64
    ensures KeyFor(U64(s * Pow2(0)), s, 0, TWO64)
  {
    assert Pow2(0) == 1;
  }

  lemma KeyFromShift(s: int, c: int, w: int, f: int)
    requires w > 0 && f > 0 && w * f == TWO64 && c * w <= s < c * w + w
    ensures KeyFor(U64(s * f), s, c * w, w)
  {
    var r := s - c * w;
    assert s * f == c * (w * f) + r * f;
    assert 0 <= r * f < TWO64 by {
      MulLe(0, r, f);
      MulLe(r + 1, w, f);
    }
    ModDrops(c, r * f);
    assert (r * f) * w == r * (w * f);
  }

  lemma ModDrops(c: int, x: int)
    requires 0 <= x < TWO64
    ensures U64(c * TWO64 + x) == x
  {
  }

  /** The sign bit of the key says which half holds s, and shifting it out gives the key for that half. */
  lemma KeyStep(k: int, s: int, lo: int, w: int)
    requires w > 0 && w % 2 == 0 && lo <= s < lo + w && KeyFor(k, s, lo, w)
    ensures k / TWO63 == if s < lo + w / 2 then 0 else 1
    ensures s < lo + w / 2 ==> KeyFor(U64(2 * k), s, lo, w / 2)
    ensures s >= lo + w / 2 ==> KeyFor(U64(2 * k), s, lo + w / 2, w / 2)
  {
    var h := w / 2;
    assert k * w == 2 * (k * h);
    assert k * h == (s - lo) * TWO63;
    if s < lo + h {
      assert k < TWO63 by {
        if k >= TWO63 { MulLe(TWO63, k, h); }
      }
      assert U64(2 * k) * h == 2 * (k * h);
    } else {
      assert k >= TWO63 by {
        if k < TWO63 { MulLe(k + 1, TWO63, h); }
      }
      assert U64(2 * k) == 2 * k - TWO64;
      assert (2 * k - TWO64) * h == 2 * (k * h) - TWO64 * h;
      assert 2 * (k * h) - TWO64 * h == (s - lo - h) * TWO64;
    }
  }
}
