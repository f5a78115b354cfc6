/** Circular doubly linked lists threaded through the fd and bk words of chunks. */
module Rings {
  import opened Words

  function NextOf(r: seq<int>, k: int): int
    requires 0 <= k < |r|
  {
    if k + 1 < |r| then r[k + 1] else r[0]
  }

  function PrevOf(r: seq<int>, k: int): int
    requires 0 <= k < |r|
  {
    if k > 0 then r[k - 1] else r[|r| - 1]
  }

  /** Following fd visits r in order and comes back; following bk visits it in reverse. */
  ghost predicate RingRep(m: Mem, r: seq<int>) {
    forall k :: 0 <= k < |r| ==> W(m, r[k] + FD) == NextOf(r, k) && W(m, r[k] + BK) == PrevOf(r, k)
  }

  /** The two link words of different members never overlap. */
  ghost predicate Spaced(r: seq<int>) {
    forall i, j :: 0 <= i < j < |r| ==> r[i] + 16 <= r[j] || r[j] + 16 <= r[i]
  }

  ghost predicate AwayFrom(r: seq<int>, x: int) {
    forall i :: 0 <= i < |r| ==> r[i] + 16 <= x || x + 16 <= r[i]
  }

  /** Nothing but the four words that link x behind the head of r has changed. */
  ghost predicate LinkedIn(m: Mem, m': Mem, r: seq<int>, x: int)
    requires r != []
  {
    var f := NextOf(r, 0);
    && W(m', r[0] + FD) == x && W(m', f + BK) == x
    && W(m', x + FD) == f && W(m', x + BK) == r[0]
    && forall k :: 0 <= k < |r| ==>
      && (k != 0 ==> W(m', r[k] + FD) == W(m, r[k] + FD))
      && (r[k] != f ==> W(m', r[k] + BK) == W(m, r[k] + BK))
  }

  /** The ring with x behind its head. */
  function Behind(r: seq<int>, x: int): seq<int>
    requires r != []
  {
    [r[0], x] + r[1..]
  }

  lemma BehindLinks(r: seq<int>, x: int, k: int)
    requires r != [] && 0 <= k < |r|
    ensures var j := if k == 0 then 0 else k + 1; var s := Behind(r, x);
      && |s| == |r| + 1 && s[j] == r[k] && s[1] == x
      && NextOf(s, j) == (if k == 0 then x else NextOf(r, k))
      && PrevOf(s, j) == (if k == 1 || (k == 0 && |r| == 1) then x else PrevOf(r, k))
    ensures NextOf(Behind(r, x), 1) == NextOf(r, 0) && PrevOf(Behind(r, x), 1) == r[0]
  {
  }

  /** The only member whose bk word leads to the head is the one after it. */
  lemma AfterHead1(r: seq<int>, k: int)
    requires r != [] && Spaced(r) && 0 <= k < |r|
    ensures r[k] == NextOf(r, 0) <==> k == 1 || (k == 0 && |r| == 1)
  {
  }

  lemma LinkedInAt(m: Mem, m': Mem, r: seq<int>, x: int, k: int)
    requires r != [] && LinkedIn(m, m', r, x) && 0 <= k < |r|
    ensures W(m', r[0] + FD) == x && W(m', NextOf(r, 0) + BK) == x && W(m', x + FD) == NextOf(r, 0)
    ensures W(m', x + BK) == r[0]
    ensures k != 0 ==> W(m', r[k] + FD) == W(m, r[k] + FD)
    ensures r[k] != NextOf(r, 0) ==> W(m', r[k] + BK) == W(m, r[k] + BK)
  {
    hide W, NextOf;
  }

  lemma InsertAfterHead(m: Mem, m': Mem, r: seq<int>, x: int)
    requires r != [] && RingRep(m, r) && Spaced(r) && AwayFrom(r, x) && LinkedIn(m, m', r, x)
    ensures RingRep(m', [r[0], x] + r[1..])
  {
    hide W, Spaced, AwayFrom, LinkedIn, NextOf, PrevOf, Behind;
    var s := Behind(r, x);
    assert s == [r[0], x] + r[1..] by { BehindIs(r, x); }
    BehindLinks(r, x, 0);
    forall i | 0 <= i < |s|
      ensures W(m', s[i] + FD) == NextOf(s, i) && W(m', s[i] + BK) == PrevOf(s, i)
    {
      var k := if i < 2 then 0 else i - 1;
      LinkedInAt(m, m', r, x, k);
      BehindLinks(r, x, k);
      AfterHead1(r, k);
    }
  }

  lemma BehindIs(r: seq<int>, x: int)
    requires r != []
    ensures Behind(r, x) == [r[0], x] + r[1..]
  {
  }

  /** Nothing but the two words that bridge over member k of r has changed. */
  ghost predicate LinkedOut(m: Mem, m': Mem, r: seq<int>, k: int)
    requires 0 <= k < |r|
  {
    var f := NextOf(r, k);
    var b := PrevOf(r, k);
    && W(m', f + BK) == b && W(m', b + FD) == f
    && forall i :: 0 <= i < |r| ==>
      && (r[i] != b ==> W(m', r[i] + FD) == W(m, r[i] + FD))
      && (r[i] != f ==> W(m', r[i] + BK) == W(m, r[i] + BK))
  }

  function Without(r: seq<int>, k: int): seq<int>
    requires 0 <= k < |r|
  {
    r[..k] + r[k + 1..]
  }

  lemma Unlink(m: Mem, m': Mem, r: seq<int>, k: int)
    requires 0 <= k < |r| && |r| >= 2 && RingRep(m, r) && Spaced(r) && LinkedOut(m, m', r, k)
    ensures RingRep(m', Without(r, k))
  {
    hide W, NextOf, PrevOf, LinkedOut, Spaced;
    var s := Without(r, k);
    forall i | 0 <= i < |s|
      ensures W(m', s[i] + FD) == NextOf(s, i) && W(m', s[i] + BK) == PrevOf(s, i)
    {
      var j := if i < k then i else i + 1;
      assert s[i] == r[j];
      UnlinkNext(r, k, i, j);
      UnlinkPrev(r, k, i, j);
      UnlinkAt(m, m', r, k, j);
    }
  }

  lemma UnlinkAt(m: Mem, m': Mem, r: seq<int>, k: int, j: int)
    requires 0 <= k < |r| && 0 <= j < |r| && RingRep(m, r) && LinkedOut(m, m', r, k)
    ensures W(m', r[j] + FD) == if r[j] == PrevOf(r, k) then NextOf(r, k) else NextOf(r, j)
    ensures W(m', r[j] + BK) == if r[j] == NextOf(r, k) then PrevOf(r, k) else PrevOf(r, j)
  {
    hide W, NextOf, PrevOf;
  }

  lemma UnlinkNext(r: seq<int>, k: int, i: int, j: int)
    requires 0 <= k < |r| && |r| >= 2 && Spaced(r)
    requires 0 <= i < |r| - 1 && j == if i < k then i else i + 1
    ensures NextOf(Without(r, k), i) == if r[j] == PrevOf(r, k) then NextOf(r, k) else NextOf(r, j)
  {
    var s := Without(r, k);
    assert forall t :: 0 <= t < |s| ==> s[t] == r[if t < k then t else t + 1];
  }

  lemma UnlinkPrev(r: seq<int>, k: int, i: int, j: int)
    requires 0 <= k < |r| && |r| >= 2 && Spaced(r)
    requires 0 <= i < |r| - 1 && j == if i < k then i else i + 1
    ensures PrevOf(Without(r, k), i) == if r[j] == NextOf(r, k) then PrevOf(r, k) else PrevOf(r, j)
  {
    var s := Without(r, k);
    assert forall t :: 0 <= t < |s| ==> s[t] == r[if t < k then t else t + 1];
  }

  /** The ring read from its last member. */
  function Rotated(r: seq<int>): seq<int>
    requires r != []
  {
    [r[|r| - 1]] + r[..|r| - 1]
  }

  lemma RotatedLinks(r: seq<int>, k: int)
    requires r != [] && 0 <= k < |r|
    ensures var s := Rotated(r); var j := if k == 0 then |r| - 1 else k - 1;
      |s| == |r| && s[k] == r[j] && NextOf(s, k) == NextOf(r, j) && PrevOf(s, k) == PrevOf(r, j)
  {
  }

  lemma Rotate(m: Mem, r: seq<int>)
    requires r != [] && RingRep(m, r)
    ensures RingRep(m, Rotated(r))
  {
    hide W, NextOf, PrevOf, Rotated;
    RotatedLinks(r, 0);
    forall k | 0 <= k < |Rotated(r)|
      ensures W(m, Rotated(r)[k] + FD) == NextOf(Rotated(r), k) && W(m, Rotated(r)[k] + BK) == PrevOf(Rotated(r), k)
    {
      RotatedLinks(r, k);
    }
  }

  lemma RingFrame(m: Mem, m': Mem, r: seq<int>)
    requires RingRep(m, r)
    requires forall k :: 0 <= k < |r| ==> W(m', r[k] + FD) == W(m, r[k] + FD) && W(m', r[k] + BK) == W(m, r[k] + BK)
    ensures RingRep(m', r)
  {
  }
}
