/** The word memory the allocator works in, and the layout of the structures it keeps there.

    Memory is a partial map from addresses to 64-bit words: an address is in the map exactly when it
    is mapped.  The allocator only touches aligned words, so overlapping misaligned words are not
    modelled.  Pointers are addresses and the null pointer is 0. */
module Words {

  type Mem = map<int, int>

  /** The word at a, for specifications: total, so that predicates need no mappedness side condition. */
  function W(m: Mem, a: int): int {
    if a in m then m[a] else 0
  }

  /** A load.  The precondition makes every access of the program a proof that the word is mapped. */
  function Get(m: Mem, a: int): (v: int)
    requires a in m
    ensures v == W(m, a)
  {
    m[a]
  }

  /** A store, likewise to a mapped word only. */
  function Put(m: Mem, a: int, v: int): (m': Mem)
    requires a in m
    ensures m'.Keys == m.Keys
    ensures W(m', a) == v
    ensures forall b :: b != a ==> W(m', b) == W(m, b)
  {
    m[a := v]
  }

  const TWO32: int := 0x1_0000_0000
  const TWO63: int := 0x8000_0000_0000_0000
  const TWO64: int := 0x1_0000_0000_0000_0000

  /** Unsigned 64-bit wrap-around. */
  function U64(x: int): (r: int)
    ensures 0 <= r < TWO64
    ensures 0 <= x < TWO64 ==> r == x
    ensures -TWO64 <= x < 0 ==> r == x + TWO64
    ensures TWO64 <= x < 2 * TWO64 ==> r == x - TWO64
  {
    x % TWO64
  }

  // struct malloc_chunk and struct malloc_tree_chunk
  const HEAD := 8
  const FD := 16
  const BK := 24
  const CHILD0 := 32
  const CHILD1 := 40
  const PARENT := 48
  const INDEX := 56
  const TCHUNK_SIZE := 64

  const MIN_CHUNK_SIZE := 32
  const MIN_LARGE_SIZE := 256
  const CHUNK_OVERHEAD := 8
  const MAX_SMALL_REQUEST := 240
  const MIN_REQUEST := 23
  const MAX_REQUEST: int := TWO64 - 128
  const MAX_SIZE_T: int := TWO64 - 1
  const MMAP_THRESHOLD: int := MAX_SIZE_T
  const CMFAIL: int := MAX_SIZE_T
  const FENCEPOST_HEAD := 11

  const PINUSE_BIT := 1
  const CINUSE_BIT := 2

  /** chunksize: head & ~INUSE_BITS. */
  function ChunkSize(head: int): int {
    head - head % 4
  }

  function PInuse(head: int): bool {
    head % 2 == 1
  }

  function CInuse(head: int): bool {
    (head / 2) % 2 == 1
  }

  /** The head word of a chunk. */
  function MkHead(size: int, pin: bool, cin: bool): int {
    size + (if pin then PINUSE_BIT else 0) + (if cin then CINUSE_BIT else 0)
  }

  lemma HeadFields(size: int, pin: bool, cin: bool)
    requires size % 8 == 0
    ensures var h := MkHead(size, pin, cin); ChunkSize(h) == size && PInuse(h) == pin && CInuse(h) == cin
  {
    var q := size / 8;
    FlagBits(q, (if pin then 1 else 0) + if cin then 2 else 0);
  }

  lemma FlagBits(q: int, c: int)
    requires 0 <= c < 4
    ensures (8 * q + c) % 4 == c && (8 * q + c) % 2 == c % 2 && ((8 * q + c) / 2) % 2 == c / 2
  {
    hide *;
    ModFour(2 * q, c);
    Halved(4 * q + c / 2, c % 2);
    Halved(2 * q, c / 2);
  }

  lemma ModFour(x: int, c: int)
    requires 0 <= c < 4
    ensures (4 * x + c) % 4 == c
  {
  }

  lemma Halved(x: int, c: int)
    requires 0 <= c < 2
    ensures (2 * x + c) / 2 == x && (2 * x + c) % 2 == c
  {
  }

  // struct malloc_segment: base, size, next, exec_offset
  const SEG_BASE := 0
  const SEG_SIZE := 8
  const SEG_NEXT := 16
  const SEG_EXEC := 24
  const SEGMENT_CHUNK := 40
  const TOP_FOOT_SIZE := 72

  // mparams.page_size, which is also the granularity
  const PAGE := 4096

  // DEFAULT_TRIM_THRESHOLD, which is mparams.trim_threshold
  const TRIM_THRESHOLD: int := 2 * 1024 * 1024

  // struct malloc_state: the parts that are addressed rather than named
  const GM := 0x1000
  const SMALLBINS := GM + 64
  const TREEBINS := GM + 592
  const GM_SEG := GM + 912
  const GM_END := GM + 944

  /** smallbin_at: the bin header read as a chunk, of which only fd and bk exist. */
  function SB(i: int): int {
    SMALLBINS + 16 * i
  }

  /** treebin_at: the slot that holds the root of tree i. */
  function TB(i: int): int {
    TREEBINS + 8 * i
  }
}
