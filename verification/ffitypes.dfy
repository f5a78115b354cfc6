/** ffi_type and the byte-level view of values. */
module FfiTypes {

  type Byte = x: int | 0 <= x < 256

  // Type codes
  const VOID := 0
  const FLOAT := 2
  const DOUBLE := 3
  const LONGDOUBLE := 4
  const UINT8 := 5
  const SINT8 := 6
  const UINT16 := 7
  const SINT16 := 8
  const UINT32 := 9
  const SINT32 := 10
  const UINT64 := 11
  const SINT64 := 12
  const STRUCT := 13
  const DATA_PTR := 14
  const COMPLEX := 15

  datatype Type = Type(code: int, size: nat, alignment: nat, elements: seq<Type>)

  /** ffi_type_pointer of a 64-bit machine. */
  const PTR_TYPE := Type(DATA_PTR, 8, 8, [])

  /** FFI_ALIGN, for the powers of two that alignments are. */
  function AlignUp(v: nat, a: nat): (r: nat)
    requires a > 0
    ensures v <= r < v + a && r % a == 0
    ensures forall x :: v <= x && x % a == 0 ==> r <= x
  {
    var r := if v % a == 0 then v else v + (a - v % a);
    AlignLeast(v, a, r);
    r
  }

  lemma AlignLeast(v: nat, a: nat, r: nat)
    requires a > 0 && r == if v % a == 0 then v else v + (a - v % a)
    ensures v <= r < v + a && r % a == 0
    ensures forall x :: v <= x && x % a == 0 ==> r <= x
  {
    var q := v / a;
    assert v == q * a + v % a;
    if v % a != 0 {
      assert r == (q + 1) * a;
      MultipleMod(q + 1, a);
      forall x | v <= x && x % a == 0 ensures r <= x {
        assert x == (x / a) * a;
        MultipleGap(q, x / a, a);
      }
    }
  }

  /** There is no multiple between q * a and (q + 1) * a. */
  lemma MultipleGap(q: int, k: int, a: int)
    requires a > 0 && q * a < k * a
    ensures (q + 1) * a <= k * a
  {
    if q < k { MulLe(q + 1, k, a); } else { MulLe(k, q, a); }
  }

  lemma MulLe(a: int, b: int, c: int)
    requires a <= b && c >= 0
    ensures a * c <= b * c
  {
    assert (b - a) * c >= 0;
  }

  lemma MultipleMod(k: int, a: int)
    requires a > 0
    ensures (k * a) % a == 0
  {
    ModUnique(k * a, k, 0, a);
  }

  lemma ModUnique(x: int, q: int, r: int, a: int)
    requires a > 0 && 0 <= r < a && x == q * a + r
    ensures x % a == r && x / a == q
  {
    var q' := x / a;
    assert q' * a <= x < q' * a + a && q * a <= x < q * a + a;
    if q > q' { MulLe(q' + 1, q, a); }
    if q < q' { MulLe(q + 1, q', a); }
  }

  // Little-endian words

  function Pow256(n: nat): (r: nat)
    ensures r > 0
    ensures (n == 1 ==> r == 0x100) && (n == 2 ==> r == 0x1_0000) && (n == 3 ==> r == 0x100_0000)
    ensures (n == 4 ==> r == 0x1_0000_0000) && (n == 5 ==> r == 0x100_0000_0000) && (n == 6 ==> r == 0x1_0000_0000_0000)
    ensures (n == 7 ==> r == 0x100_0000_0000_0000) && (n == 8 ==> r == 0x1_0000_0000_0000_0000)
  {
    if n == 0 then 1 else 256 * Pow256(n - 1)
  }

  function Decode(b: seq<Byte>): (v: nat)
    ensures v < Pow256(|b|)
  {
    if b == [] then 0 else b[0] + 256 * Decode(b[1..])
  }

  function Encode(v: nat, n: nat): (b: seq<Byte>)
    ensures |b| == n
    decreases n
  {
    if n == 0 then [] else [v % 256] + Encode(v / 256, n - 1)
  }

  lemma {:induction false} EncodeDecode(b: seq<Byte>)
    ensures Encode(Decode(b), |b|) == b
  {
    if b != [] {
      EncodeDecode(b[1..]);
      assert Decode(b) % 256 == b[0] && Decode(b) / 256 == Decode(b[1..]);
    }
  }

  lemma Shift256(k: nat, p: nat)
    ensures k * (256 * p) == 256 * (k * p)
  {
  }

  lemma AddLow(v: nat, x: nat)
    ensures (v + 256 * x) % 256 == v % 256 && (v + 256 * x) / 256 == v / 256 + x
  {
  }

  /** Only the low bytes matter. */
  lemma {:induction false} EncodeLow(v: nat, k: nat, n: nat)
    ensures Encode(v + k * Pow256(n), n) == Encode(v, n)
    decreases n
  {
    if n > 0 {
      var w := v + k * Pow256(n);
      Shift256(k, Pow256(n - 1));
      AddLow(v, k * Pow256(n - 1));
      EncodeLow(v / 256, k, n - 1);
    }
  }

  lemma {:induction false} DecodeEncode(v: nat, n: nat)
    requires v < Pow256(n)
    ensures Decode(Encode(v, n)) == v
    decreases n
  {
    if n > 0 {
      DecodeEncode(v / 256, n - 1);
    }
  }
}
