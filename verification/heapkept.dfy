/** What a heap operation leaves as it was: the blocks of the clients, their contents and the translation of their
    addresses into code addresses. */
module HeapKept {
  import opened HeapState
  import opened HeapSteps
  import opened Tiles
  import opened Words

  /** The blocks handed out, with their chunk sizes. */
  function Users(cs: Chunks): map<int, int> {
    map p | p in cs && cs[p].kind.User? :: cs[p].size
  }

  /** u lists blocks that are handed out. */
  ghost predicate UsersIn(u: map<int, int>, cs: Chunks) {
    forall q :: q in u ==> q in cs && cs[q].kind.User? && cs[q].size == u[q]
  }

  /** The contents of the blocks in u, up to and including the first word of the next chunk, are unchanged. */
  ghost predicate SameData(m: Mem, m': Mem, u: map<int, int>) {
    forall q, a {:trigger q in u, W(m', a)} :: q in u && q + 16 <= a < q + u[q] + 8 ==> W(m', a) == W(m, a)
  }

  lemma BinsKeepData(m: Mem, m': Mem, s: State, u: map<int, int>)
    requires ShapeOk(s) && UsersIn(u, s.cs) && FreeWordsOnly(m, m', s.cs)
    ensures SameData(m, m', u)
  {
    hide W, Linked, Firsts, Coalesced, BinnedIs, DvOk, TopOk, RecordPlace;
    forall q, a | q in u && q + 16 <= a < q + u[q] + 8
      ensures W(m', a) == W(m, a)
    {
      assert SegOk(s.g[s.cs[q].home]);
      DataOutside(s, q, a);
    }
  }

  /** No word of a block in use lies inside a free chunk. */
  lemma DataOutside(s: State, q: int, a: int)
    requires ShapeOk(s) && q in s.cs && InUse(s.cs[q].kind) && q + 16 <= a < q + s.cs[q].size + 8
    ensures forall p :: p in s.cs && !InUse(s.cs[p].kind) ==> a < p + 16 || a >= p + s.cs[p].size
  {
    hide Linked, Firsts, Coalesced, BinnedIs, DvOk, TopOk, RecordPlace, SegsOk, Homes;
  }

  lemma RekindUsers(cs: Chunks, p: int, k: Kind, u: map<int, int>)
    requires p in cs && FreeKind(cs[p].kind) && FreeKind(k)
    ensures UsersIn(u, cs) ==> UsersIn(u, Rekind(cs, p, k))
    ensures Users(Rekind(cs, p, k)) == Users(cs)
  {
  }

  lemma IntervalAligned(s: State, lo: int)
    requires ShapeOk(s) && lo in s.cs
    ensures lo % 8 == 0
  {
  }

  lemma CarveKeepsData(m: Mem, m': Mem, s: State, lo: int, mid: int, hi: int, k1: Kind, k2: Kind, u: map<int, int>)
    requires ShapeOk(s) && CanCarve(s.cs, s.g, lo, mid, hi, k1, k2) && OnlyTags(m, m', lo, mid, hi)
    requires UsersIn(u, s.cs) && forall q :: q in u ==> q < lo || q >= hi
    ensures SameData(m, m', u) && UsersIn(u, Carve(s.cs, lo, mid, hi, k1, k2))
  {
    hide W, Linked, Firsts, Coalesced, BinnedIs, DvOk, TopOk, RecordPlace, SegsOk, Homes, Carve;
    forall q | q in u
      ensures var c := Carve(s.cs, lo, mid, hi, k1, k2); q in c && c[q].kind.User? && c[q].size == u[q]
    {
      CarveAt(s.cs, lo, mid, hi, k1, k2, q);
    }
    IntervalAligned(s, lo);
    assert NoOverlap(s.cs);
    assert forall q :: q in u && q < lo ==> q + u[q] <= lo;
  }

  /** How redrawing changes what is handed out. */
  lemma CarveUsers(s: State, lo: int, mid: int, hi: int, k1: Kind, k2: Kind)
    requires lo in s.cs && lo < mid <= hi && !k2.User?
    requires forall p :: p in s.cs && lo <= p < hi && s.cs[p].kind.User? ==> p == lo
    ensures Users(Carve(s.cs, lo, mid, hi, k1, k2)) == if k1.User? then Users(s.cs)[lo := mid - lo]
      else Users(s.cs) - {lo}
  {
    hide Carve;
    var c := Carve(s.cs, lo, mid, hi, k1, k2);
    var u := if k1.User? then Users(s.cs)[lo := mid - lo] else Users(s.cs) - {lo};
    forall p ensures p in Users(c) <==> p in u
      ensures p in u && p in Users(c) ==> Users(c)[p] == u[p]
    {
      CarveAt(s.cs, lo, mid, hi, k1, k2, p);
    }
  }

  /** The distance from the writable to the executable mapping of the memory q lies in. */
  function ExecOf(s: State, q: int): int {
    if q in s.cs && s.cs[q].home in s.g then s.g[s.cs[q].home].exec else 0
  }

  ghost predicate SameExec(s: State, s': State, u: map<int, int>) {
    forall q :: q in u ==> ExecOf(s', q) == ExecOf(s, q)
  }

  /** The blocks in u are handed out before and after, with their contents and code addresses. */
  ghost predicate Kept(m: Mem, s: State, m': Mem, s': State, u: map<int, int>) {
    UsersIn(u, s.cs) && UsersIn(u, s'.cs) && SameData(m, m', u) && SameExec(s, s', u)
  }

  lemma KeptTrans(m: Mem, s: State, m1: Mem, s1: State, m2: Mem, s2: State, u: map<int, int>)
    requires Kept(m, s, m1, s1, u) && Kept(m1, s1, m2, s2, u)
    ensures Kept(m, s, m2, s2, u)
  {
    hide W, ExecOf, UsersIn;
  }

  lemma KeptLess(m: Mem, s: State, m': Mem, s': State, u: map<int, int>, v: map<int, int>)
    requires Kept(m, s, m', s', u) && forall q :: q in v ==> q in u && u[q] == v[q]
    ensures Kept(m, s, m', s', v)
  {
    hide W, ExecOf;
  }

  lemma UsersAreIn(cs: Chunks)
    ensures UsersIn(Users(cs), cs)
  {
  }

  /** Bin operations keep everything. */
  lemma BinsKept(m: Mem, m': Mem, s: State, s': State, p: int, k: Kind)
    requires ShapeOk(s) && FreeWordsOnly(m, m', s.cs) && p in s.cs && FreeKind(s.cs[p].kind) && FreeKind(k)
    requires s' == s.(b := s'.b, cs := Rekind(s.cs, p, k))
    ensures Kept(m, s, m', s', Users(s.cs)) && Users(s'.cs) == Users(s.cs)
    ensures Pending(s'.cs) == if k.Loose? then Pending(s.cs) + {p} else Pending(s.cs) - {p}
  {
    hide W, ShapeOk, FreeWordsOnly;
    var u := Users(s.cs);
    UsersAreIn(s.cs);
    BinsKeepData(m, m', s, u);
    RekindUsers(s.cs, p, k, u);
  }

  /** Redrawing keeps everything but the blocks redrawn. */
  lemma CarveKept(m: Mem, m': Mem, s: State, lo: int, mid: int, hi: int, k1: Kind, k2: Kind, u: map<int, int>)
    requires ShapeOk(s) && CarveOk(s, lo, mid, hi, k1, k2) && OnlyTags(m, m', lo, mid, hi)
    requires UsersIn(u, s.cs) && forall q :: q in u ==> q < lo || q >= hi
    ensures Kept(m, s, m', CarveState(s, lo, mid, hi, k1, k2), u)
  {
    hide W, ShapeOk, Carve, OnlyTags;
    CarveKeepsData(m, m', s, lo, mid, hi, k1, k2, u);
    forall q | q in u
      ensures ExecOf(CarveState(s, lo, mid, hi, k1, k2), q) == ExecOf(s, q)
    {
      CarveAt(s.cs, lo, mid, hi, k1, k2, q);
    }
  }

  lemma CarvePending(s: State, lo: int, mid: int, hi: int, k1: Kind, k2: Kind)
    requires lo in s.cs && lo < mid <= hi
    ensures var c := Carve(s.cs, lo, mid, hi, k1, k2); forall q ::
      q in Pending(c) <==>
        (q in Pending(s.cs) && (q < lo || q >= hi)) || (q == lo && (k1.Loose? || k1.Fresh?)) ||
          (q == mid && mid < hi && (k2.Loose? || k2.Fresh?))
  {
    hide Carve;
    var c := Carve(s.cs, lo, mid, hi, k1, k2);
    forall q
      ensures q in Pending(c) <==>
        (q in Pending(s.cs) && (q < lo || q >= hi)) || (q == lo && (k1.Loose? || k1.Fresh?)) ||
          (q == mid && mid < hi && (k2.Loose? || k2.Fresh?))
    {
      CarveAt(s.cs, lo, mid, hi, k1, k2, q);
    }
  }
}
