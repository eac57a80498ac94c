/**
 The circular buffer allocator of source/cba.c on values: which chunks exist, where they lie and
 which of them are bound. Class CbaAllocator.Cba is the same allocator with its headers in a byte
 buffer; its methods are proved against the functions of this module.

 The ring is kept in two stretches of back-to-back chunks. `hi` starts at the tail. `lo` is empty
 until the allocation pointer has wrapped, and then starts at index 0.
 */
module CbaRing {
  import opened Wrappers

  const HEADER_LEN := 4
  const UINT16 := 0x1_0000

  /** The largest buffer whose chunk lengths fit the 12-bit chunk_len field; see HeadersSufficeIff. */
  const MAX_SIZE := 4100

  /** A header at `idx` followed by `len` payload bytes. */
  datatype Chunk = Chunk(idx: nat, len: nat, bound: bool) {
    function End(): nat {
      idx + HEADER_LEN + len
    }
  }

  datatype Ring = Ring(size: nat, hi: seq<Chunk>, lo: seq<Chunk>) {
    function Chunks(): seq<Chunk> {
      hi + lo
    }

    /** tail_idx: the oldest chunk. */
    function Tail(): nat {
      if Chunks() == [] then 0 else Chunks()[0].idx
    }

    /** head_idx: the newest chunk. */
    function Head(): nat {
      if Chunks() == [] then 0 else Last(Chunks()).idx
    }

    /** free_idx: where the next chunk would go. */
    function Free(): nat {
      if Chunks() == [] || Last(Chunks()).End() == size then 0 else Last(Chunks()).End()
    }
  }

  const EMPTY_CHUNKS: seq<Chunk> := []

  function Init(size: nat): Ring {
    Ring(size, [], [])
  }

  // ---------------------------------------------------------------- layout

  /** Every chunk starts where the previous one ends. */
  ghost predicate Contiguous(cs: seq<Chunk>) {
    forall i :: 0 <= i < |cs| - 1 ==> cs[i + 1].idx == cs[i].End()
  }

  /** What every reachable allocator state satisfies. */
  ghost predicate Tiled(r: Ring) {
    && Contiguous(r.hi)
    && Contiguous(r.lo)
    && (r.hi == [] ==> r.lo == [])
    && (r.hi != [] && r.lo == [] ==> Last(r.hi).End() < r.size)
    && (r.lo != [] ==> r.lo[0].idx == 0 && Last(r.hi).End() == r.size && Last(r.lo).End() < r.hi[0].idx)
  }

  /** The buffer bytes between tail_idx and free_idx, going round the end. */
  predicate Occupied(r: Ring, p: nat) {
    if r.Chunks() == [] then false
    else if r.lo == [] then r.Tail() <= p < r.Free()
    else p < r.Free() || r.Tail() <= p < r.size
  }

  predicate Covers(c: Chunk, p: nat) {
    c.idx <= p < c.End()
  }

  /** Offset p is the i-th chunk's header or payload. */
  predicate CoveredBy(r: Ring, i: nat, p: nat) {
    i < |r.Chunks()| && Covers(r.Chunks()[i], p)
  }

  lemma {:induction false} ContiguousOrder(cs: seq<Chunk>, i: nat, j: nat)
    requires Contiguous(cs) && i < j < |cs|
    ensures cs[i].End() <= cs[j].idx
    decreases j
  {
    if i + 1 < j {
      ContiguousOrder(cs, i, j - 1);
    }
  }

  /** Two chunks of a reachable state share no byte and both lie inside the buffer. */
  lemma ChunksDisjoint(r: Ring, i: nat, j: nat)
    requires Tiled(r) && i < j < |r.Chunks()|
    ensures r.Chunks()[i].End() <= r.Chunks()[j].idx || r.Chunks()[j].End() <= r.Chunks()[i].idx
    ensures r.Chunks()[i].End() <= r.size && r.Chunks()[j].End() <= r.size
    ensures r.Chunks()[i].idx != r.Chunks()[j].idx
  {
    ChunkInside(r, i);
    ChunkInside(r, j);
    if j < |r.hi| {
      ContiguousOrder(r.hi, i, j);
    } else if |r.hi| <= i {
      ContiguousOrder(r.lo, i - |r.hi|, j - |r.hi|);
    }
  }

  /** A chunk lies in its own stretch: above the tail, or below the free index after a wrap. */
  lemma ChunkInside(r: Ring, i: nat)
    requires Tiled(r) && i < |r.Chunks()|
    ensures r.Chunks()[i].End() <= r.size
    ensures i < |r.hi| ==> r.Tail() <= r.Chunks()[i].idx
    ensures |r.hi| <= i ==> r.Chunks()[i].End() <= r.Free() < r.Tail()
    ensures r.lo == [] ==> r.Chunks()[i].End() <= r.Free()
  {
    if i < |r.hi| {
      if 0 < i {
        ContiguousOrder(r.hi, 0, i);
      }
      if i < |r.hi| - 1 {
        ContiguousOrder(r.hi, i, |r.hi| - 1);
      }
      if r.lo != [] {
        EndsInOrder(r.hi, 0);
      }
    } else {
      if i < |r.Chunks()| - 1 {
        ContiguousOrder(r.lo, i - |r.hi|, |r.lo| - 1);
      }
      EndsInOrder(r.hi, 0);
    }
  }

  /** A chunk ends no later than the last chunk of its stretch. */
  lemma EndsInOrder(cs: seq<Chunk>, i: nat)
    requires Contiguous(cs) && i < |cs|
    ensures cs[i].End() <= Last(cs).End()
  {
    if i < |cs| - 1 {
      ContiguousOrder(cs, i, |cs| - 1);
    }
  }

  /** In a contiguous stretch every byte from its start to its end belongs to a chunk. */
  lemma {:induction false} ContiguousCovers(cs: seq<Chunk>, p: nat) returns (i: nat)
    requires Contiguous(cs) && cs != [] && cs[0].idx <= p < Last(cs).End()
    ensures i < |cs| && Covers(cs[i], p)
  {
    if p < cs[0].End() {
      i := 0;
    } else {
      i := ContiguousCovers(cs[1..], p);
      i := i + 1;
    }
  }

  /** The chunks tile the occupied region exactly: a byte is occupied iff one chunk, and only one, covers it. */
  lemma TilesOccupied(r: Ring, p: nat)
    requires Tiled(r)
    ensures Occupied(r, p) <==> exists i :: CoveredBy(r, i, p)
    ensures forall i, j :: CoveredBy(r, i, p) && CoveredBy(r, j, p) ==> i == j
  {
    forall i | CoveredBy(r, i, p) ensures Occupied(r, p) {
      ChunkInside(r, i);
    }
    if Occupied(r, p) {
      if r.lo != [] && p < r.Free() {
        var i := ContiguousCovers(r.lo, p);
        assert CoveredBy(r, |r.hi| + i, p);
      } else {
        var i := ContiguousCovers(r.hi, p);
        assert CoveredBy(r, i, p);
      }
    }
    forall i, j | CoveredBy(r, i, p) && CoveredBy(r, j, p) ensures i == j {
      if i < j {
        ChunksDisjoint(r, i, j);
      } else if j < i {
        ChunksDisjoint(r, j, i);
      }
    }
  }

  // ---------------------------------------------------------------- walking the ring

  /** cba_next_chunk_idx: the index after chunk c. */
  function Next(r: Ring, c: Chunk): nat
    requires 0 < r.size
  {
    c.End() % r.size
  }

  lemma ModUpTo(a: nat, n: nat)
    requires 0 < n && a <= n
    ensures a % n == if a == n then 0 else a
  {
  }

  /** Following the next index from chunk i visits the remaining chunks in order and stops at free_idx,
      which no chunk starts at. */
  lemma WalkReachesFree(r: Ring, i: nat)
    requires Tiled(r) && i < |r.Chunks()|
    ensures 0 < r.size
    ensures Next(r, r.Chunks()[i]) == if i + 1 < |r.Chunks()| then r.Chunks()[i + 1].idx else r.Free()
    ensures r.Chunks()[i].idx != r.Free()
  {
    ChunkInside(r, i);
    ChunkInside(r, |r.Chunks()| - 1);
    ModUpTo(r.Chunks()[i].End(), r.size);
    if i < |r.hi| - 1 {
      ContiguousOrder(r.hi, i, |r.hi| - 1);
    }
  }

  /** free_idx meets tail_idx only in the empty ring. */
  lemma FreeIsTailOnlyWhenEmpty(r: Ring)
    requires Tiled(r)
    ensures r.Free() == r.Tail() <==> r.Chunks() == []
  {
    if r.Chunks() != [] {
      WalkReachesFree(r, 0);
    }
  }

  // ---------------------------------------------------------------- operations

  /** cba_chunk_len: at least 3, rounded up to a multiple of 4, kept in 16 bits. */
  function ChunkLen(len: nat): nat {
    var n := if len < 3 then 3 else len;
    if n % 4 == 0 then n else (n / 4 + 1) * 4 % UINT16
  }

  /** The rounded length holds the request exactly when it does not wrap round 16 bits. */
  lemma ChunkLenHolds(len: nat)
    requires len < UINT16
    ensures len <= 65532 <==> len <= ChunkLen(len)
    ensures ChunkLen(len) % 4 == 0 && (len <= 65532 ==> 4 <= ChunkLen(len) <= len + 4)
  {
  }

  function Alloc(idx: nat, len: nat): Chunk {
    Chunk(idx, ChunkLen(len), true)
  }

  /** The last chunk grown to the end of the buffer and marked bound, as a wrap leaves it. */
  function Stretch(r: Ring): seq<Chunk>
    requires r.hi != [] && Last(r.hi).idx + HEADER_LEN <= r.size
  {
    r.hi[|r.hi| - 1 := Chunk(Last(r.hi).idx, r.size - (Last(r.hi).idx + HEADER_LEN), true)]
  }

  /** Whether a request of `len` placed at `idx` on an unwrapped ring is sent to the buffer start. */
  predicate Wraps(r: Ring, idx: nat, len: nat) {
    && r.hi != [] && r.lo == []
    && !(idx + HEADER_LEN + ChunkLen(len) < r.size)
    && HEADER_LEN + ChunkLen(len) < r.Tail()
  }

  /** cba_malloc. The new chunk is the last one of the resulting ring. */
  function Malloc(r: Ring, len: nat): Option<Ring>
    requires Tiled(r)
  {
    var c := Alloc(r.Free(), len);
    if r.lo != [] then
      if c.End() < r.Tail() then Some(r.(lo := r.lo + [c])) else None
    else if c.End() < r.size then Some(r.(hi := r.hi + [c]))
    else if Wraps(r, r.Free(), len) then
      ChunkInside(r, |r.hi| - 1);
      Some(Ring(r.size, Stretch(r), [Alloc(0, len)]))
    else None
  }

  /** The chunk at position k with its bound flag cleared. */
  function Unbind(r: Ring, k: nat): Ring
    requires k < |r.Chunks()|
  {
    if k < |r.hi| then r.(hi := r.hi[k := r.hi[k].(bound := false)])
    else r.(lo := r.lo[k - |r.hi| := r.lo[k - |r.hi|].(bound := false)])
  }

  /** The oldest chunk removed; after the last chunk of the upper stretch the lower one takes its place. */
  function DropTail(r: Ring): Ring
    requires r.hi != []
  {
    if |r.hi| == 1 then Ring(r.size, r.lo, []) else r.(hi := r.hi[1..])
  }

  /** Removes unbound chunks from the tail until a bound one is met. */
  function Coalesce(r: Ring): Ring
    decreases |r.Chunks()|
  {
    if r.hi == [] || r.hi[0].bound then r else Coalesce(DropTail(r))
  }

  /** cba_free of the chunk at position k. */
  function Free(r: Ring, k: nat): Ring
    requires k < |r.Chunks()|
  {
    if k == 0 then Coalesce(Unbind(r, 0)) else Unbind(r, k)
  }

  /** The last chunk given a new length in place, bound again. */
  function Resize(r: Ring, len: nat): Ring
    requires r.Chunks() != []
  {
    var c := Alloc(r.Head(), len);
    if r.lo != [] then r.(lo := r.lo[|r.lo| - 1 := c]) else r.(hi := r.hi[|r.hi| - 1 := c])
  }

  datatype Realloced = Realloced(idx: nat, ring: Ring)

  /** cba_realloc of the chunk at position k: its index afterwards and the ring. */
  function Realloc(r: Ring, k: nat, len: nat): Option<Realloced>
    requires Tiled(r) && k < |r.Chunks()|
  {
    var c := r.Chunks()[k];
    ChunkInside(r, k);
    if c.len > len then Some(Realloced(c.idx, r))
    else if k != |r.Chunks()| - 1 then None
    else if Alloc(c.idx, len).End() < (if r.lo != [] then r.Tail() else r.size) then
      Some(Realloced(c.idx, Resize(r, len)))
    else if Wraps(r, c.idx, len) then
      Some(Realloced(0, Free(Ring(r.size, Stretch(r), [Alloc(0, len)]), k)))
    else None
  }

  // ---------------------------------------------------------------- the layout is kept

  lemma MallocTiled(r: Ring, len: nat)
    requires Tiled(r)
    ensures Malloc(r, len).Some? ==> Tiled(Malloc(r, len).value)
  {
    if r.hi != [] {
      ChunkInside(r, |r.hi| - 1);
      ChunkInside(r, |r.Chunks()| - 1);
    }
  }

  lemma UnbindTiled(r: Ring, k: nat)
    requires Tiled(r) && k < |r.Chunks()|
    ensures Tiled(Unbind(r, k))
    ensures Unbind(r, k).Chunks() == r.Chunks()[k := r.Chunks()[k].(bound := false)]
  {
  }

  lemma DropTailTiled(r: Ring)
    requires Tiled(r) && r.hi != []
    ensures Tiled(DropTail(r)) && DropTail(r).Chunks() == r.Chunks()[1..]
  {
    if r.lo != [] {
      EndsInOrder(r.hi, 0);
    }
  }

  /** The number of unbound chunks at the front. */
  function Unbound(cs: seq<Chunk>): (n: nat)
    ensures n <= |cs|
    ensures forall i :: 0 <= i < n ==> !cs[i].bound
    ensures n < |cs| ==> cs[n].bound
  {
    if cs == [] || cs[0].bound then 0 else 1 + Unbound(cs[1..])
  }

  /** Coalescing drops exactly the unbound chunks in front of the first bound one. */
  lemma {:induction false} CoalesceDropsUnbound(r: Ring)
    requires Tiled(r)
    ensures Tiled(Coalesce(r)) && Coalesce(r).size == r.size
    ensures Coalesce(r).Chunks() == r.Chunks()[Unbound(r.Chunks())..]
    decreases |r.Chunks()|
  {
    if r.hi != [] && !r.hi[0].bound {
      DropTailTiled(r);
      CoalesceDropsUnbound(DropTail(r));
    }
  }

  /** Freeing clears one flag and then drops the unbound chunks at the tail, if the tail was freed. */
  lemma FreeEffect(r: Ring, k: nat)
    requires Tiled(r) && k < |r.Chunks()|
    ensures Tiled(Free(r, k)) && Free(r, k).size == r.size
    ensures var cs := r.Chunks()[k := r.Chunks()[k].(bound := false)];
            Free(r, k).Chunks() == if k == 0 then cs[Unbound(cs)..] else cs
  {
    UnbindTiled(r, k);
    CoalesceDropsUnbound(Unbind(r, k));
  }

  lemma WrapTiled(r: Ring, idx: nat, len: nat)
    requires Tiled(r) && Wraps(r, idx, len)
    ensures Last(r.hi).idx + HEADER_LEN <= r.size
    ensures Tiled(Ring(r.size, Stretch(r), [Alloc(0, len)]))
  {
    ChunkInside(r, |r.hi| - 1);
  }

  lemma ReallocTiled(r: Ring, k: nat, len: nat)
    requires Tiled(r) && k < |r.Chunks()|
    ensures Realloc(r, k, len).Some? ==> Tiled(Realloc(r, k, len).value.ring)
  {
    ChunkInside(r, k);
    if Wraps(r, r.Chunks()[k].idx, len) {
      WrapTiled(r, r.Chunks()[k].idx, len);
      FreeEffect(Ring(r.size, Stretch(r), [Alloc(0, len)]), k);
    }
  }

  /** A successful malloc adds one bound chunk with room for the request and keeps the start of every other
      chunk; the rounded length is too short exactly when it wrapped round 16 bits. */
  lemma MallocEffect(r: Ring, len: nat)
    requires Tiled(r) && len < UINT16 && Malloc(r, len).Some?
    ensures var r' := Malloc(r, len).value;
            && |r'.Chunks()| == |r.Chunks()| + 1 && Last(r'.Chunks()).bound && Last(r'.Chunks()).idx == r'.Head()
            && (len <= Last(r'.Chunks()).len <==> len <= 65532)
            && forall i :: 0 <= i < |r.Chunks()| ==>
                             && r'.Chunks()[i].idx == r.Chunks()[i].idx && r.Chunks()[i].len <= r'.Chunks()[i].len
                             && (i < |r.Chunks()| - 1 ==> r'.Chunks()[i] == r.Chunks()[i])
  {
    ChunkLenHolds(len);
    if r.hi != [] {
      ChunkInside(r, |r.Chunks()| - 1);
    }
  }

  /** A successful realloc leaves a bound chunk where it says, with room for the request unless the rounded length
      wrapped round 16 bits. */
  lemma ReallocCapacity(r: Ring, k: nat, len: nat)
    requires Tiled(r) && k < |r.Chunks()| && len < UINT16 && r.Chunks()[k].bound && Realloc(r, k, len).Some?
    ensures var m := Realloc(r, k, len).value;
            exists j :: && 0 <= j < |m.ring.Chunks()| && m.ring.Chunks()[j].idx == m.idx && m.ring.Chunks()[j].bound
                        && (len <= m.ring.Chunks()[j].len <==> len <= 65532 || len < r.Chunks()[k].len)
  {
    var c := r.Chunks()[k];
    var m := Realloc(r, k, len).value;
    ChunkLenHolds(len);
    ChunkInside(r, k);
    if c.len > len {
      assert m.ring.Chunks()[k].idx == m.idx;
    } else if Alloc(c.idx, len).End() < (if r.lo != [] then r.Tail() else r.size) {
      assert m.ring.Chunks()[k] == Alloc(c.idx, len);
    } else {
      RelocatedIsLast(r, k, len);
      assert m.ring.Chunks()[|m.ring.Chunks()| - 1] == Alloc(0, len);
    }
  }

  /** A relocation leaves the new chunk at the head. */
  lemma RelocatedIsLast(r: Ring, k: nat, len: nat)
    requires Tiled(r) && k + 1 == |r.Chunks()| && Wraps(r, r.Chunks()[k].idx, len)
    ensures Last(r.hi).idx + HEADER_LEN <= r.size && k < |Ring(r.size, Stretch(r), [Alloc(0, len)]).Chunks()|
    ensures var cs := Free(Ring(r.size, Stretch(r), [Alloc(0, len)]), k).Chunks();
            cs != [] && Last(cs) == Alloc(0, len)
  {
    WrapTiled(r, r.Chunks()[k].idx, len);
    var r1 := Ring(r.size, Stretch(r), [Alloc(0, len)]);
    FreeEffect(r1, k);
    var cs := r1.Chunks()[k := r1.Chunks()[k].(bound := false)];
    assert cs[k + 1] == Alloc(0, len);
    assert Unbound(cs) <= k + 1;
  }

  /** Of the requests that a chunk has room for, only one of exactly its length is ever refused, and that one
      exactly when the chunk is not the newest. The newest chunk stays as it is. */
  lemma SmallRequestRefusedIff(r: Ring, k: nat, len: nat)
    requires Tiled(r) && k < |r.Chunks()| && len <= r.Chunks()[k].len
    requires k + 1 == |r.Chunks()| ==> 0 < r.Chunks()[k].len && r.Chunks()[k].len % 4 == 0 && r.Chunks()[k].bound
    ensures Realloc(r, k, len).None? <==> len == r.Chunks()[k].len && k + 1 < |r.Chunks()|
    ensures Realloc(r, k, len).Some? ==> Realloc(r, k, len) == Some(Realloced(r.Chunks()[k].idx, r))
  {
    ChunkInside(r, k);
    var c := r.Chunks()[k];
    if len == c.len && k + 1 == |r.Chunks()| {
      assert Alloc(c.idx, len) == c;
      assert r.lo != [] ==> r.lo[|r.lo| - 1 := c] == r.lo;
      assert r.lo == [] ==> r.hi[|r.hi| - 1 := c] == r.hi;
    }
  }

  // ---------------------------------------------------------------- the header's length field

  /** What the 12 bits of the header keep of a length. */
  function StoredLen(len: nat): nat {
    len % 4096
  }

  /** The longest chunk starts at 0 and leaves room for its header and one byte. */
  lemma ChunkLenBound(r: Ring, i: nat)
    requires Tiled(r) && i < |r.Chunks()|
    ensures r.Chunks()[i].len + HEADER_LEN < r.size
  {
    ChunkInside(r, i);
    ChunkInside(r, |r.Chunks()| - 1);
  }

  /** The header keeps the length of every chunk that a buffer can hold. */
  ghost predicate HeadersSuffice(size: nat) {
    forall r: Ring, i :: Tiled(r) && r.size == size && 0 <= i < |r.Chunks()| ==>
      StoredLen(r.Chunks()[i].len) == r.Chunks()[i].len
  }

  /** It does so exactly for buffers of up to MAX_SIZE bytes; in a larger one a single malloc loses the length. */
  lemma HeadersSufficeIff(size: nat)
    ensures HeadersSuffice(size) <==> size <= MAX_SIZE
  {
    hide Tiled;
    if size <= MAX_SIZE {
      forall r: Ring, i | Tiled(r) && r.size == size && 0 <= i < |r.Chunks()|
        ensures StoredLen(r.Chunks()[i].len) == r.Chunks()[i].len
      {
        ChunkLenBound(r, i);
      }
    } else {
      LengthLost(size);
      var r := Malloc(Init(size), 4096).value;
      assert r.size == size && StoredLen(r.Chunks()[0].len) != r.Chunks()[0].len;
    }
  }

  lemma LengthLost(size: nat)
    requires MAX_SIZE < size
    ensures Tiled(Init(size)) && Malloc(Init(size), 4096).Some?
    ensures var r := Malloc(Init(size), 4096).value; Tiled(r) && r.size == size && r.Chunks() == [Chunk(0, 4096, true)]
    ensures StoredLen(4096) == 0
  {
  }

  // ---------------------------------------------------------------- when a request succeeds

  /** The buffer has room at p for a header, the rounded payload and one byte to spare. */
  ghost predicate Gap(r: Ring, p: nat, len: nat) {
    && p + HEADER_LEN + ChunkLen(len) < r.size
    && forall q: nat :: p <= q <= p + HEADER_LEN + ChunkLen(len) ==> !Occupied(r, q)
  }

  /** A request succeeds exactly when the buffer has such a gap, so malloc never gives up too early. */
  lemma MallocSucceedsIffGap(r: Ring, len: nat)
    requires Tiled(r)
    ensures Malloc(r, len).Some? <==> exists p: nat :: Gap(r, p, len)
  {
    if r.hi != [] {
      ChunkInside(r, |r.Chunks()| - 1);
      ChunkInside(r, 0);
    }
    if Malloc(r, len).Some? {
      assert Gap(r, Last(Malloc(r, len).value.Chunks()).idx, len);
    }
    forall p: nat | Gap(r, p, len) ensures Malloc(r, len).Some? {
      assert !Occupied(r, p) && !Occupied(r, p + HEADER_LEN + ChunkLen(len));
      if r.hi != [] && p < r.Tail() {
        assert Occupied(r, r.Tail());
      }
    }
  }

  /** The newest chunk could grow where it is: the bytes from its header on are its own or free. */
  ghost predicate OwnPlace(r: Ring, len: nat)
    requires r.Chunks() != []
  {
    var c := Last(r.Chunks());
    && c.idx + HEADER_LEN + ChunkLen(len) < r.size
    && forall q: nat :: c.idx <= q <= c.idx + HEADER_LEN + ChunkLen(len) ==> !Occupied(r, q) || q < c.End()
  }

  /** Growing the newest chunk succeeds exactly when there is room for it where it is or a gap for another one, and it
      stays where it is whenever there is room. */
  lemma ReallocGrowsIff(r: Ring, len: nat)
    requires Tiled(r) && r.Chunks() != [] && Last(r.Chunks()).len <= len
    ensures var (c, m) := (Last(r.Chunks()), Realloc(r, |r.Chunks()| - 1, len));
            && (m.Some? <==> OwnPlace(r, len) || exists p: nat :: Gap(r, p, len))
            && (m.Some? ==> (m.value.idx == c.idx <==> OwnPlace(r, len)))
  {
    var k := |r.Chunks()| - 1;
    var c := Last(r.Chunks());
    ChunkInside(r, k);
    ChunkInside(r, 0);
    MallocSucceedsIffGap(r, len);
    if r.lo == [] {
      assert c == Last(r.hi);
    } else {
      assert c == Last(r.lo);
      if OwnPlace(r, len) && r.Tail() <= c.idx + HEADER_LEN + ChunkLen(len) {
        assert Occupied(r, r.Tail());
      }
    }
  }
}
