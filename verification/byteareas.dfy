/** Writing and finding values in stretches of memory. */
module ByteAreas {
  import opened FfiTypes

  predicate Apart(s1: nat, e1: nat, s2: nat, e2: nat) {
    e1 <= s2 || e2 <= s1
  }

  function Fill(n: nat, b: Byte): (r: seq<Byte>)
    ensures |r| == n && forall k :: 0 <= k < n ==> r[k] == b
  {
    if n == 0 then [] else [b] + Fill(n - 1, b)
  }

  /** The area after b has been written. */
  function Over(s: seq<Byte>, at: nat, b: seq<Byte>): (r: seq<Byte>)
    requires at + |b| <= |s|
    ensures |r| == |s| && r[at..at + |b|] == b
    ensures forall k: nat :: k < at || at + |b| <= k < |s| ==> r[k] == s[k]
  {
    s[..at] + b + s[at + |b|..]
  }

  /** The bytes of a value at a place. */
  predicate Holds(area: seq<Byte>, at: nat, value: seq<Byte>) {
    at + |value| <= |area| && area[at..at + |value|] == value
  }

  lemma WriteElsewhere(area: seq<Byte>, at: nat, value: seq<Byte>, end: nat, at': nat, b: seq<Byte>, end': nat)
    requires Holds(area, at, value) && at + |value| <= end && at' + |b| <= end' <= |area| && Apart(at, end, at', end')
    ensures Holds(Over(area, at', b), at, value)
  {
    var now := Over(area, at', b);
    forall k | 0 <= k < |value| ensures now[at + k] == value[k] {
      assert area[at..at + |value|][k] == value[k];
    }
    assert now[at..at + |value|] == value;
  }

  lemma WriteHere(area: seq<Byte>, at: nat, b: seq<Byte>)
    requires at + |b| <= |area|
    ensures Holds(Over(area, at, b), at, b)
  {
  }

  method Write(dst: array<Byte>, at: nat, b: seq<Byte>)
    requires at + |b| <= dst.Length
    modifies dst
    ensures dst[..] == Over(old(dst[..]), at, b)
  {
    for i := 0 to |b|
      invariant forall k :: 0 <= k < dst.Length ==> dst[k] == if at <= k < at + i then b[k - at] else old(dst[k])
    {
      dst[at + i] := b[i];
    }
  }
}
