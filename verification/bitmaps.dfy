/** The occupancy bitmaps: 32-bit words whose bit i says whether bin i holds a chunk.

    A word is modelled as its 32 bits, least significant first, and the C operators act on those bits.
    Negation is the one operator that is not bitwise; NegIsTwosComplement ties it to arithmetic. */
module BitMaps {
  import opened BinIndex

  type Bits = x: seq<bool> | |x| == 32 witness seq(32, _ => false)

  const ZERO_MAP: Bits := seq(32, _ => false)

  /** idx2bit: 1 << i. */
  function IdxToBit(i: int): Bits {
    seq(32, j => i == j)
  }

  function Or(x: Bits, y: Bits): Bits {
    seq(32, j requires 0 <= j < 32 => x[j] || y[j])
  }

  function And(x: Bits, y: Bits): Bits {
    seq(32, j requires 0 <= j < 32 => x[j] && y[j])
  }

  function Not(x: Bits): Bits {
    seq(32, j requires 0 <= j < 32 => !x[j])
  }

  function Shl(x: Bits, n: nat): Bits {
    seq(32, j requires 0 <= j < 32 => j >= n && x[j - n])
  }

  function Shr(x: Bits, n: nat): Bits {
    seq(32, j requires 0 <= j < 32 => j + n < 32 && x[j + n])
  }

  /** Whether some bit of x below n is set. */
  predicate AnyBelow(x: Bits, n: nat)
    requires n <= 32
  {
    exists k :: 0 <= k < n && x[k]
  }

  /** -x: bits up to and including the first set one stay, the rest flip. */
  function Neg(x: Bits): Bits {
    seq(32, j requires 0 <= j < 32 => if AnyBelow(x, j) then !x[j] else x[j])
  }

  predicate NonZero(x: Bits) {
    AnyBelow(x, 32)
  }

  /** mark_smallmap, mark_treemap. */
  function Mark(x: Bits, i: int): (r: Bits)
    requires 0 <= i < 32
    ensures r == x[i := true]
  {
    Or(x, IdxToBit(i))
  }

  /** clear_smallmap, clear_treemap. */
  function Clear(x: Bits, i: int): (r: Bits)
    requires 0 <= i < 32
    ensures r == x[i := false]
  {
    And(x, Not(IdxToBit(i)))
  }

  function LeastBit(x: Bits): Bits {
    And(x, Neg(x))
  }

  function LeftBits(x: Bits): Bits {
    Or(Shl(x, 1), Neg(Shl(x, 1)))
  }

  /** ffs(x) - 1, which compute_bit2idx is built on here. */
  function BitToIdx(x: Bits): (i: int)
    requires NonZero(x)
    ensures 0 <= i < 32 && x[i]
    ensures forall j :: 0 <= j < i ==> !x[j]
  {
    FirstFrom(x, 0)
  }

  function FirstFrom(x: Bits, i: int): (r: int)
    requires 0 <= i < 32
    requires exists j :: i <= j < 32 && x[j]
    requires forall j :: 0 <= j < i ==> !x[j]
    ensures 0 <= r < 32 && x[r]
    ensures forall j :: 0 <= j < r ==> !x[j]
    decreases 32 - i
  {
    if x[i] then i else FirstFrom(x, i + 1)
  }

  /** least_bit isolates the first set bit. */
  lemma LeastBitIsFirst(x: Bits)
    requires NonZero(x)
    ensures LeastBit(x) == IdxToBit(BitToIdx(x))
    ensures NonZero(LeastBit(x)) && BitToIdx(LeastBit(x)) == BitToIdx(x)
  {
    var i := BitToIdx(x);
    forall j | 0 <= j < 32
      ensures LeastBit(x)[j] <==> i == j
    {
      if j > i {
        assert AnyBelow(x, j);
      } else {
        assert !AnyBelow(x, j);
      }
    }
    assert LeastBit(x)[i];
  }

  /** left_bits of a single bit is the mask of all later bits. */
  lemma LeftBitsOfIndex(i: int)
    requires 0 <= i < 32
    ensures forall j :: 0 <= j < 32 ==> (LeftBits(IdxToBit(i))[j] <==> j > i)
  {
    var y := Shl(IdxToBit(i), 1);
    forall j | 0 <= j < 32
      ensures LeftBits(IdxToBit(i))[j] <==> j > i
    {
      if j > i + 1 {
        assert y[i + 1];
        assert AnyBelow(y, j);
      } else {
        assert !AnyBelow(y, j);
      }
    }
  }

  function Value(x: Bits, n: nat): nat
    requires n <= 32
  {
    if n == 0 then 0 else Value(x, n - 1) + (if x[n - 1] then Pow2(n - 1) else 0)
  }

  /** Neg is arithmetic negation of unsigned 32-bit words. */
  lemma {:induction false} NegIsTwosComplement(x: Bits, n: nat)
    requires n <= 32
    ensures Value(Neg(x), n) == if AnyBelow(x, n) then Pow2(n) - Value(x, n) else 0
    ensures !AnyBelow(x, n) ==> Value(x, n) == 0
    decreases n
  {
    if n > 0 {
      NegIsTwosComplement(x, n - 1);
      assert AnyBelow(x, n) <==> AnyBelow(x, n - 1) || x[n - 1];
    }
  }
}
