/** What dlfree relies on at each of its steps. */
module HeapFree {
  import opened Bins
  import opened HeapGrow
  import opened HeapKept
  import opened HeapMoves
  import opened HeapState
  import opened HeapSteps
  import opened HeapTags
  import opened SegDrop
  import opened SegPrepend
  import opened Tiles
  import opened Words

  /** Block b is being freed: lo is b itself or the free chunk before it, which is the victim or out of its bin; next is
      the chunk after b. */
  ghost predicate Freeing(m: Mem, s: State, lo: int, b: int, next: int) {
    && b in s.cs && s.cs[b].kind.User? && lo in s.cs && s.cs[lo].pin && next == b + s.cs[b].size
    && (lo == b || (Follows(s.cs, lo, b) && Joinable(s.cs[lo].kind)))
    && Pending(s.cs) == (if lo != b && s.cs[lo].kind.Loose? then {lo} else {})
    && Recognized(m, s, next) && s.order != []
  }

  /** The words of a block's neighbourhood can be read, and its head says what is before it. */
  lemma BlockSeen(m: Mem, s: State, b: int)
    requires HeapOk(m, s) && b in Users(s.cs) && Pending(s.cs) == {}
    ensures b in s.cs && b + HEAD in m && b in m && Recognized(m, s, b) && s.cs[b].kind.User?
    ensures s.cs[b].pin ==> Freeing(m, s, b, b, b + s.cs[b].size)
  {
    hide W, HeapOk, ShapeOk, Recognized, Pending;
    ShapeOf(m, s);
    OneChunk(s, b);
    ChunkMapped(m, s, b, b);
    ChunkMapped(m, s, b, b + HEAD);
    Recognize(m, s, b);
    NotLast(s, b);
    Recognize(m, s, b + s.cs[b].size);
  }

  /** The foot before block b leads to a free chunk, which is the victim or binned. */
  ghost predicate FreeBefore(m: Mem, s: State, b: int) {
    var prev := b - W(m, b);
    && prev in s.cs && Follows(s.cs, prev, b) && s.cs[prev].size == W(m, b) && s.cs[prev].pin
    && (s.cs[prev].kind.Binned? <==> prev != s.dv) && (s.cs[prev].kind.Dv? <==> prev == s.dv)
    && W(m, b) % 2 == 0
  }

  /** What precedes the block, given that its head says it is free: the foot leads to it. */
  lemma BeforeSeen(m: Mem, s: State, b: int)
    requires HeapOk(m, s) && b in Users(s.cs) && Pending(s.cs) == {} && !s.cs[b].pin
    ensures FreeBefore(m, s, b)
    ensures b in s.cs && Recognized(m, s, b + s.cs[b].size) && s.order != []
  {
    hide W, HeapOk, ShapeOk, Recognized, Pending, FreeBefore, Users;
    ShapeOf(m, s);
    UserChunk(s.cs, b);
    FootLeads(m, s, b);
    NotLast(s, b);
    NotPending(s, b + s.cs[b].size);
    Recognize(m, s, b + s.cs[b].size);
  }

  lemma UserChunk(cs: Chunks, b: int)
    requires b in Users(cs)
    ensures b in cs && cs[b].kind.User?
  {
  }

  lemma NotPending(s: State, p: int)
    requires Pending(s.cs) == {} && p in s.cs
    ensures p !in Pending(s.cs) && !s.cs[p].kind.Loose? && !s.cs[p].kind.Fresh?
  {
    NotPendingKind(s.cs, p);
  }

  lemma FootLeads(m: Mem, s: State, b: int)
    requires HeapOk(m, s) && b in s.cs && Pending(s.cs) == {} && !s.cs[b].pin
    ensures FreeBefore(m, s, b)
  {
    hide W, HeapOk, ShapeOk, Pending, HeadOk;
    ShapeOf(m, s);
    var prev := Before(s, b);
    TagsAt(m, s, prev);
    NotPending(s, prev);
    TopNotAt(s, prev);
    EvenSize(s.cs[prev].size);
    assert W(m, b) == s.cs[prev].size;
  }

  lemma EvenSize(x: int)
    requires x % 8 == 0
    ensures x % 2 == 0
  {
    FlagBits(x / 8, 0);
  }

  lemma NotPendingKind(cs: Chunks, p: int)
    requires p in cs && p !in Pending(cs)
    ensures !cs[p].kind.Loose? && !cs[p].kind.Fresh?
  {
  }

  /** A chunk whose pin bit is clear has a free chunk right before it. */
  lemma Before(s: State, b: int) returns (prev: int)
    requires ShapeOk(s) && b in s.cs && !s.cs[b].pin
    ensures prev in s.cs && Follows(s.cs, prev, b) && !InUse(s.cs[prev].kind) && s.cs[prev].pin && !s.cs[prev].kind.Top?
  {
    hide ShapeOk;
    HomeOf(s, b);
    FirstsOf(s, s.cs[b].home);
    prev := LastBefore(s, b, s.g[s.cs[b].home].base);
    CoalescedAt(s, prev);
  }

  lemma CoalescedAt(s: State, p: int)
    requires ShapeOk(s) && p in s.cs && !InUse(s.cs[p].kind)
    ensures s.cs[p].pin
    ensures s.cs[p].kind.Top? ==> p + s.cs[p].size !in s.cs
  {
    hide Tiling, BinnedIs, RecordPlace, DvOk;
    TopNotAt(s, p);
    if s.cs[p].kind.Top? {
      TopPlace(s);
    }
  }

  /** The chunks of a segment can be walked from any one of them to the one before a later one. */
  lemma {:induction false} LastBefore(s: State, b: int, from: int) returns (prev: int)
    requires ShapeOk(s) && b in s.cs && from in s.cs && s.cs[from].home == s.cs[b].home && from < b && !s.cs[b].pin
    ensures prev in s.cs && Follows(s.cs, prev, b) && !InUse(s.cs[prev].kind)
    decreases b - from
  {
    hide Coalesced, BinnedIs, RecordPlace, DvOk, TopOk, Firsts, SegsOk, Linked;
    OneChunk(s, from);
    LinkedHere(s, from);
    HomeOf(s, b);
    var n := from + s.cs[from].size;
    if n == b {
      prev := from;
    } else {
      OneChunk(s, b);
      NoOverlapOf(s);
      prev := LastBefore(s, b, n);
    }
  }

  lemma LinkedHere(s: State, p: int)
    requires ShapeOk(s) && p in s.cs
    ensures s.cs[p].home in s.g
    ensures p + s.cs[p].size == s.g[s.cs[p].home].limit || Follows(s.cs, p, p + s.cs[p].size)
  {
    hide Coalesced, BinnedIs, RecordPlace, DvOk, TopOk, Firsts, SegsOk, NoOverlap;
    assert NextOk(p, s.cs, s.g);
  }

  // The spans of the cases of dlfree

  /** The words that freeing writes can be written. */
  lemma FreeMapped(m: Mem, s: State, lo: int, b: int, next: int)
    requires HeapOk(m, s) && Freeing(m, s, lo, b, next)
    ensures lo + HEAD in m && next in m && next + HEAD in m && lo < next && lo % 8 == 0
    ensures next in s.cs ==> next + s.cs[next].size in m && next + s.cs[next].size + HEAD in m
  {
    hide W, HeapOk, ShapeOk, Recognized, Pending;
    ShapeOf(m, s);
    OneChunk(s, lo);
    OneChunk(s, b);
    ChunkMapped(m, s, lo, lo + HEAD);
    ChunkMapped(m, s, b, next);
    ChunkMapped(m, s, b, next + HEAD);
    if next in s.cs {
      OneChunk(s, next);
      ChunkMapped(m, s, next, next + s.cs[next].size);
      ChunkMapped(m, s, next, next + s.cs[next].size + HEAD);
    }
  }

  /** Next is in use: block and free chunk before it are all there is to join. */
  lemma FreeUpTo(m: Mem, s: State, lo: int, b: int, next: int)
    requires HeapOk(m, s) && Freeing(m, s, lo, b, next) && InUse(s.cs[next].kind)
    ensures Span(s, lo, b, next) && NextInUse(s, b, next) && !NextTop(s, b, next) && s.cs[b].kind.User?
    ensures forall q :: q in Pending(s.cs) ==> q == lo
    ensures lo == s.dv ==> lo <= s.dv < next
  {
    hide W, HeapOk, Recognized;
    FreeMapped(m, s, lo, b, next);
    RecognizedIs(m, s, next);
  }

  lemma RecognizedIs(m: Mem, s: State, n: int)
    requires Recognized(m, s, n)
    ensures n in s.cs && n + HEAD in m && n > 0
    ensures s.cs[n].kind.Top? <==> n == s.top
    ensures s.cs[n].kind.Dv? <==> n == s.dv
    ensures !InUse(s.cs[n].kind) && n != s.top && n != s.dv ==> s.cs[n].kind.Binned?
  {
  }

  /** Next is top. */
  lemma FreeToTop(m: Mem, s: State, lo: int, b: int, next: int)
    requires HeapOk(m, s) && Freeing(m, s, lo, b, next) && next == s.top
    ensures var hi := s.top + s.topsize;
      && Span(s, lo, b, hi) && NextTop(s, b, hi) && s.cs[b].kind.User? && hi - lo == s.topsize + (next - lo)
      && (lo <= s.dv < hi <==> lo == s.dv)
    ensures forall q :: q in Pending(s.cs) ==> q == lo
  {
    hide W, HeapOk, ShapeOk, Recognized;
    ShapeOf(m, s);
    TopPlace(s);
    VictimIs(s);
    DvInside(s, lo, b, next);
    FreeMapped(m, s, lo, b, next);
    OneChunk(s, next);
    TopNotAt(s, next);
  }

  /** Whether the victim is part of what is joined. */
  lemma DvInside(s: State, lo: int, b: int, next: int)
    requires ShapeOk(s) && lo in s.cs && b in s.cs && s.cs[b].kind.User? && (lo == b || Follows(s.cs, lo, b))
    requires next == b + s.cs[b].size
    ensures lo <= s.dv < next ==> lo == s.dv
  {
    hide ShapeOk;
    VictimIs(s);
    TopNotAt(s, lo);
    OneChunk(s, lo);
    OneChunk(s, b);
  }

  /** Next is the victim. */
  lemma FreeToVictim(m: Mem, s: State, lo: int, b: int, next: int)
    requires HeapOk(m, s) && Freeing(m, s, lo, b, next) && next in s.cs && s.cs[next].kind.Dv?
    ensures var hi := next + s.dvsize;
      Span(s, lo, b, hi) && !NextTop(s, b, hi) && !NextInUse(s, b, hi) && s.cs[b].kind.User? && next == s.dv &&
        lo <= s.dv < hi && hi == next + s.cs[next].size
    ensures forall q :: q in Pending(s.cs) ==> q == lo
    ensures !(lo <= s.top < next + s.dvsize)
  {
    hide W, HeapOk, ShapeOk, Recognized;
    ShapeOf(m, s);
    VictimSize(m, s, next);
    FreeMapped(m, s, lo, b, next);
    OneChunk(s, next);
    TopNotAt(s, next);
    TopInside(s, lo, b, next);
  }

  lemma TopInside(s: State, lo: int, b: int, next: int)
    requires ShapeOk(s) && lo in s.cs && b in s.cs && s.cs[b].kind.User?
    requires (lo == b || (Follows(s.cs, lo, b) && Joinable(s.cs[lo].kind)))
    requires next == b + s.cs[b].size && next in s.cs && !s.cs[next].kind.Top? && s.order != []
    ensures !(lo <= s.top < next + s.cs[next].size)
  {
    hide ShapeOk;
    TopPlace(s);
    OneChunk(s, lo);
    OneChunk(s, b);
    OneChunk(s, next);
  }

  /** Next has been taken out of its bin. */
  lemma FreeForward(m0: Mem, s0: State, m: Mem, s: State, lo: int, b: int, next: int)
    requires HeapOk(m0, s0) && Freeing(m0, s0, lo, b, next) && next in s0.cs && s0.cs[next].kind.Binned?
    requires HeapOk(m, s) && s.cs == Rekind(s0.cs, next, Loose) && Pending(s.cs) == Pending(s0.cs) + {next}
    requires s.top == s0.top && s.dv == s0.dv
    ensures var hi := next + s0.cs[next].size;
      Span(s, lo, b, hi) && !NextTop(s, b, hi) && !NextInUse(s, b, hi) && (lo <= s.dv < hi ==> lo == s.dv)
    ensures b in s.cs && s.cs[b].kind.User?
    ensures forall q :: q in Pending(s.cs) ==> q == lo || q == next
    ensures lo < next < next + s0.cs[next].size
  {
    hide W, HeapOk, ShapeOk, Recognized;
    ShapeOf(m0, s0);
    FreeMapped(m0, s0, lo, b, next);
    OneChunk(s0, next);
    TopNotAt(s0, next);
    DvInside(s0, lo, b, next);
    VictimIs(s0);
  }

  lemma PendingOnly(s: State, t: State, lo: int, hi: int, keep: bool)
    requires forall q :: q in Pending(s.cs) ==> lo <= q < hi
    requires forall q :: q in Pending(t.cs) <==> (q in Pending(s.cs) && (q < lo || q >= hi)) || (q == lo && keep)
    ensures Pending(t.cs) == if keep then {lo} else {}
  {
    hide Pending;
    assert forall q :: q in Pending(t.cs) <==> q == lo && keep;
  }

  /** The victim is not between the ends of what is joined unless it is at the start. */
  lemma FreeParts(m: Mem, s: State, lo: int, b: int, next: int)
    requires HeapOk(m, s) && Freeing(m, s, lo, b, next)
    ensures lo in s.cs && next == b + s.cs[b].size && (lo <= s.dv < next ==> lo == s.dv)
    ensures (s.dvsize == 0 ==> s.dv == 0) && lo > 0
    ensures !(lo <= s.top < next)
  {
    hide W, HeapOk, ShapeOk, Recognized;
    ShapeOf(m, s);
    DvInside(s, lo, b, next);
    TopNotAt(s, lo);
    TopOutside(s, lo, b, next);
    VictimZero(m, s);
  }

  lemma VictimZero(m: Mem, s: State)
    requires HeapOk(m, s)
    ensures s.dvsize == 0 <==> s.dv == 0
  {
    hide W, Tiling, Coalesced, BinnedIs, RecordPlace, TopOk, TagsOk, FencesOk, BinsOk, SegList, MappedOk;
  }

  lemma TopOutside(s: State, lo: int, b: int, next: int)
    requires ShapeOk(s) && lo in s.cs && b in s.cs && s.cs[b].kind.User?
    requires (lo == b || (Follows(s.cs, lo, b) && Joinable(s.cs[lo].kind)))
    requires next == b + s.cs[b].size && s.order != []
    ensures !(lo <= s.top < next)
  {
    hide ShapeOk;
    TopPlace(s);
    OneChunk(s, lo);
    OneChunk(s, b);
  }

  lemma FreeSeen(m: Mem, s: State, lo: int, b: int, next: int)
    requires Freeing(m, s, lo, b, next)
    ensures Recognized(m, s, next) && s.order != []
  {
  }

  lemma RekindKeeps(cs: Chunks, p: int, q: int)
    requires p in cs && q in cs && q != p
    ensures q in Rekind(cs, p, Loose) && Rekind(cs, p, Loose)[q] == cs[q]
  {
  }

  /** The free chunk before the block has been taken out of its bin. */
  lemma FreeingAfterUnlink(m0: Mem, s0: State, m: Mem, s: State, lo: int, b: int)
    requires HeapOk(m0, s0) && b in s0.cs && s0.cs[b].kind.User? && lo in s0.cs && s0.cs[lo].kind.Binned?
    requires s0.cs[lo].pin && Follows(s0.cs, lo, b)
    requires Recognized(m0, s0, b + s0.cs[b].size) && s0.order != [] && Pending(s0.cs) == {}
    requires HeapOk(m, s) && s == s0.(b := s.b, cs := Rekind(s0.cs, lo, Loose)) && Pending(s.cs) == {lo}
    ensures Freeing(m, s, lo, b, b + s0.cs[b].size)
  {
    hide W, HeapOk, ShapeOk, Recognized, Pending;
    ShapeOf(m0, s0);
    OneChunk(s0, b);
    OneChunk(s0, lo);
    RecognizedIs(m0, s0, b + s0.cs[b].size);
    Recognize(m, s, b + s0.cs[b].size);
  }

  /** The free chunk before the block is the victim. */
  lemma FreeingAfterVictim(m: Mem, s: State, lo: int, b: int)
    requires HeapOk(m, s) && b in s.cs && s.cs[b].kind.User? && lo in s.cs && s.cs[lo].kind.Dv? && s.cs[lo].pin
    requires Follows(s.cs, lo, b)
    requires Recognized(m, s, b + s.cs[b].size) && s.order != [] && Pending(s.cs) == {}
    ensures Freeing(m, s, lo, b, b + s.cs[b].size)
  {
    hide W, HeapOk, Recognized, Pending;
  }

  lemma RecognizedTags(m: Mem, s: State, n: int)
    requires Recognized(m, s, n)
    ensures n in s.cs && n + HEAD in m
    ensures var h := W(m, n + HEAD);
      CInuse(h) == InUse(s.cs[n].kind) && PInuse(h) == s.cs[n].pin && ChunkSize(h) == s.cs[n].size
    ensures (s.cs[n].kind.Top? <==> n == s.top) && (s.cs[n].kind.Dv? <==> n == s.dv)
    ensures !InUse(s.cs[n].kind) && n != s.top && n != s.dv ==> s.cs[n].kind.Binned?
  {
  }

  lemma FreeBeforeIs(m: Mem, s: State, b: int)
    requires FreeBefore(m, s, b)
    ensures var prev := b - W(m, b);
      && prev in s.cs && Follows(s.cs, prev, b) && s.cs[prev].size == W(m, b) && s.cs[prev].pin
      && (s.cs[prev].kind.Binned? <==> prev != s.dv) && (s.cs[prev].kind.Dv? <==> prev == s.dv)
      && W(m, b) % 2 == 0
  {
  }

  /** The chunk after a block in use says so. */
  lemma NextPinned(m: Mem, s: State, lo: int, b: int, next: int)
    requires HeapOk(m, s) && Freeing(m, s, lo, b, next)
    ensures next in s.cs && s.cs[next].pin && lo < next
  {
    hide W, HeapOk, ShapeOk, Recognized;
    ShapeOf(m, s);
    NotLast(s, b);
    FreeMapped(m, s, lo, b, next);
  }
}
