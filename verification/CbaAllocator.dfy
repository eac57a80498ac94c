/**
 source/cba.c in place: three moving indices over one byte buffer that also holds the chunk headers.
 Each method is proved against the function of the same name in CbaRing. Pointers are offsets into
 the buffer; a payload starts HEADER_LEN bytes after its header.
 */
module CbaAllocator {
  import opened Wrappers
  import opened CbaRing

  const MARKER_LO: Byte := 0xFA
  const MARKER_HI: Byte := 0x5F

  /** chunk_len, the upper 12 bits of the header's second half-word */
  function LenField(lo: Byte, hi: Byte): nat {
    var l: int, h: int := lo, hi;
    l / 16 + 16 * h
  }

  /** The first of those bytes with the bound bit set or cleared; the other bits stay. */
  function SetBound(lo: Byte, bound: bool): (r: Byte)
    ensures r % 2 == (if bound then 1 else 0) && r / 2 == lo / 2
  {
    lo / 2 * 2 + if bound then 1 else 0
  }

  /** The first of those bytes with the low four bits of a length; the other bits stay. */
  function SetLenLow(lo: Byte, len: nat): (r: Byte)
    requires len < 4096
    ensures r % 16 == lo % 16 && r % 2 == lo % 2
    ensures LenField(r, len / 16) == len
  {
    len % 16 * 16 + lo % 16
  }

  /** The header of chunk c as the packed struct lays it out: marker, then bound:1, padding:3, chunk_len:12. */
  predicate Encoded(b: seq<Byte>, c: Chunk) {
    && c.idx + HEADER_LEN <= |b|
    && b[c.idx] == MARKER_LO && b[c.idx + 1] == MARKER_HI
    && (b[c.idx + 2] % 2 == 1 <==> c.bound)
    && LenField(b[c.idx + 2], b[c.idx + 3]) == c.len
  }

  ghost predicate AllEncoded(b: seq<Byte>, r: Ring) {
    forall i :: 0 <= i < |r.Chunks()| ==> Encoded(b, r.Chunks()[i])
  }

  /** Only the header bytes at idx may differ. */
  ghost predicate SameButHeader(before: seq<Byte>, after: seq<Byte>, idx: nat) {
    && |before| == |after|
    && forall p :: 0 <= p < |after| && !(idx <= p < idx + HEADER_LEN) ==> before[p] == after[p]
  }

  /** Every chunk of r but the one at position `except` has the same payload bytes in both buffers. */
  ghost predicate SamePayloads(before: seq<Byte>, after: seq<Byte>, r: Ring, except: int) {
    && |before| == |after|
    && forall i, p :: 0 <= i < |r.Chunks()| && i != except &&
                      r.Chunks()[i].idx + HEADER_LEN <= p < r.Chunks()[i].End() && p < |before|
                      ==> before[p] == after[p]
  }

  lemma EncodedKept(before: seq<Byte>, after: seq<Byte>, idx: nat, c: Chunk)
    requires SameButHeader(before, after, idx) && Encoded(before, c)
    requires c.idx + HEADER_LEN <= idx || idx + HEADER_LEN <= c.idx
    ensures Encoded(after, c)
  {
  }

  /** What cba_allocate_chunk does to the ring: a new last chunk when placed at the free index (k is the number
      of chunks), the last chunk resized or left behind when placed at the head index. */
  ghost function Allocated(r: Ring, len: nat, k: nat): Option<Ring>
    requires Tiled(r) && (k == |r.Chunks()| || k + 1 == |r.Chunks()|)
  {
    if k == |r.Chunks()| then Malloc(r, len)
    else if Alloc(r.Head(), len).End() < (if r.lo != [] then r.Tail() else r.size) then Some(Resize(r, len))
    else if Wraps(r, r.Head(), len) then
      WrapTiled(r, r.Head(), len);
      Some(Ring(r.size, Stretch(r), [Alloc(0, len)]))
    else None
  }

  lemma AllocatedTiled(r: Ring, len: nat, k: nat)
    requires Tiled(r) && (k == |r.Chunks()| || k + 1 == |r.Chunks()|)
    ensures Allocated(r, len, k).Some? ==> Tiled(Allocated(r, len, k).value)
  {
    MallocTiled(r, len);
    if k < |r.Chunks()| {
      ChunkInside(r, k);
    }
  }

  /** The ring after a chunk was placed at idx without wrapping. */
  lemma PlacedShape(r: Ring, idx: nat, len: nat, k: nat)
    requires Tiled(r)
    requires (k == |r.Chunks()| && idx == r.Free()) || (k + 1 == |r.Chunks()| && idx == r.Head())
    requires Alloc(idx, len).End() < if idx < r.Tail() then r.Tail() else r.size
    ensures Allocated(r, len, k).Some?
    ensures var r' := Allocated(r, len, k).value;
            && Tiled(r') && r'.size == r.size
            && r'.Chunks() == r.Chunks()[..k] + [Alloc(idx, len)]
            && r'.Head() == idx && r'.Free() == Alloc(idx, len).End() && r'.Tail() == r.Tail()
            && r'.Free() < r'.size
  {
    AllocatedTiled(r, len, k);
    if r.hi != [] {
      ChunkInside(r, |r.Chunks()| - 1);
      ChunkInside(r, 0);
    }
  }

  /** The ring after a chunk was placed at the start of the buffer. */
  lemma WrappedShape(r: Ring, idx: nat, len: nat, k: nat)
    requires Tiled(r)
    requires (k == |r.Chunks()| && idx == r.Free()) || (k + 1 == |r.Chunks()| && idx == r.Head())
    requires r.Tail() <= idx && !(Alloc(idx, len).End() < r.size)
    requires 0 < r.Tail() && HEADER_LEN + ChunkLen(len) < r.Tail()
    ensures Wraps(r, idx, len) && r.Head() == Last(r.hi).idx && r.Tail() <= r.Head() && r.Head() + HEADER_LEN <= r.size
    ensures var r' := Ring(r.size, Stretch(r), [Alloc(0, len)]);
            && Allocated(r, len, k) == Some(r') && Tiled(r')
            && r'.Head() == 0 && r'.Free() == Alloc(0, len).End() && r'.Tail() == r.Tail()
            && r'.Free() < r'.size
  {
    ChunkInside(r, |r.Chunks()| - 1);
    ChunkInside(r, 0);
    WrapTiled(r, idx, len);
  }

  /** Neither place has room. */
  lemma NoPlace(r: Ring, idx: nat, len: nat, k: nat)
    requires Tiled(r)
    requires (k == |r.Chunks()| && idx == r.Free()) || (k + 1 == |r.Chunks()| && idx == r.Head())
    requires !(Alloc(idx, len).End() < if idx < r.Tail() then r.Tail() else r.size)
    requires r.Tail() <= idx ==> !(0 < r.Tail() && HEADER_LEN + ChunkLen(len) < r.Tail())
    ensures Allocated(r, len, k).None?
  {
    if r.hi != [] {
      ChunkInside(r, |r.Chunks()| - 1);
      ChunkInside(r, 0);
    }
  }

  /** Writing the header of the last chunk leaves every other chunk alone. */
  lemma PlacedInRing(before: seq<Byte>, after: seq<Byte>, r: Ring, r': Ring)
    requires Tiled(r) && AllEncoded(before, r) && r.size <= |before|
    requires Tiled(r') && r'.Chunks() != [] && Encoded(after, Last(r'.Chunks()))
    requires r'.Chunks()[..|r'.Chunks()| - 1] <= r.Chunks()
    requires |r.Chunks()| <= |r'.Chunks()|
    requires |r.Chunks()| == |r'.Chunks()| ==> Last(r.Chunks()).idx == Last(r'.Chunks()).idx
    requires SameButHeader(before, after, Last(r'.Chunks()).idx)
    ensures AllEncoded(after, r') && SamePayloads(before, after, r, -1)
  {
    var last := |r'.Chunks()| - 1;
    forall i | 0 <= i < last ensures r'.Chunks()[i] == r.Chunks()[i] && Encoded(after, r'.Chunks()[i]) {
      assert r'.Chunks()[i] == r'.Chunks()[..last][i];
      ChunksDisjoint(r', i, last);
      EncodedKept(before, after, Last(r'.Chunks()).idx, r'.Chunks()[i]);
    }
    forall i, p | 0 <= i < |r.Chunks()| && r.Chunks()[i].idx + HEADER_LEN <= p < r.Chunks()[i].End() && p < |before|
      ensures before[p] == after[p]
    {
      if i < last {
        assert r'.Chunks()[i] == r'.Chunks()[..last][i];
        ChunksDisjoint(r', i, last);
      }
    }
  }

  /** The two header writes of a wrap: the last chunk stretched to the buffer end, then a chunk at 0. */
  lemma WrappedInRing(before: seq<Byte>, mid: seq<Byte>, after: seq<Byte>, r: Ring, idx: nat, len: nat)
    requires Tiled(r) && AllEncoded(before, r) && r.size <= |before| && Wraps(r, idx, len)
    requires Last(r.hi).idx + HEADER_LEN <= r.size
    requires SameButHeader(before, mid, Last(r.hi).idx) && Encoded(mid, Last(Stretch(r)))
    requires SameButHeader(mid, after, 0) && Encoded(after, Alloc(0, len))
    ensures AllEncoded(after, Ring(r.size, Stretch(r), [Alloc(0, len)])) && SamePayloads(before, after, r, -1)
  {
    var r' := Ring(r.size, Stretch(r), [Alloc(0, len)]);
    var last := |r.hi| - 1;
    WrapTiled(r, idx, len);
    forall i | 0 <= i <= last ensures Encoded(after, r'.Chunks()[i]) {
      ChunksDisjoint(r', i, last + 1);
      if i < last {
        ChunksDisjoint(r', i, last);
        assert r'.Chunks()[i] == r.Chunks()[i];
        EncodedKept(before, mid, Last(r.hi).idx, r'.Chunks()[i]);
      }
      EncodedKept(mid, after, 0, r'.Chunks()[i]);
    }
    forall i, p | 0 <= i < |r.Chunks()| && r.Chunks()[i].idx + HEADER_LEN <= p < r.Chunks()[i].End() && p < |before|
      ensures before[p] == after[p]
    {
      ChunksDisjoint(r', i, last + 1);
      if i < last {
        ChunksDisjoint(r, i, last);
      }
    }
  }

  class Cba {
    const buffer: array<Byte>
    const size: nat
    var freeIdx: nat
    var headIdx: nat
    var tailIdx: nat
    ghost var ring: Ring

    ghost predicate Valid()
      reads this, buffer
    {
      && size <= MAX_SIZE && size <= buffer.Length
      && ring.size == size
      && Tiled(ring)
      && freeIdx == ring.Free() && headIdx == ring.Head() && tailIdx == ring.Tail()
      && AllEncoded(buffer[..], ring)
    }

    /** A payload pointer to the chunk at position k. */
    ghost predicate PointsTo(chunk: Option<nat>, k: nat)
      reads this
    {
      chunk.Some? ==> k < |ring.Chunks()| && chunk.value == ring.Chunks()[k].idx + HEADER_LEN
    }

    constructor (pool: array<Byte>)
      requires pool.Length <= MAX_SIZE
      ensures Valid() && buffer == pool && ring == Init(pool.Length)
    {
      buffer := pool;
      size := pool.Length;
      freeIdx, headIdx, tailIdx := 0, 0, 0;
      ring := Init(pool.Length);
    }

    /** cba_reset */
    method Reset()
      requires Valid()
      modifies this`freeIdx, this`headIdx, this`tailIdx, this`ring
      ensures Valid() && ring == Init(size)
    {
      hide Tiled, AllEncoded;
      InitShape(size, buffer[..]);
      freeIdx, headIdx, tailIdx := 0, 0, 0;
      ring := Init(size);
    }

    /** cba_next_chunk_idx, from the header bytes */
    method NextChunkIdx(idx: nat, ghost k: nat) returns (next: nat)
      requires Tiled(ring) && ring.size == size <= buffer.Length && AllEncoded(buffer[..], ring)
      requires k < |ring.Chunks()| && idx == ring.Chunks()[k].idx
      ensures next == if k + 1 < |ring.Chunks()| then ring.Chunks()[k + 1].idx else ring.Free()
    {
      WalkReachesFree(ring, k);
      assert Encoded(buffer[..], ring.Chunks()[k]);
      next := (idx + HEADER_LEN + LenField(buffer[idx + 2], buffer[idx + 3])) % size;
    }

    /** cba_reallocate_chunk: writes a bound header and moves the head and free index. */
    method ReallocateChunk(idx: nat, len: nat)
      requires idx + HEADER_LEN + len <= size <= buffer.Length && len < 4096
      modifies this`headIdx, this`freeIdx, buffer
      ensures Encoded(buffer[..], Chunk(idx, len, true))
      ensures SameButHeader(old(buffer[..]), buffer[..], idx)
      ensures headIdx == idx && freeIdx == if idx + HEADER_LEN + len == size then 0 else idx + HEADER_LEN + len
    {
      buffer[idx] := MARKER_LO;
      buffer[idx + 1] := MARKER_HI;
      buffer[idx + 2] := SetBound(buffer[idx + 2], true);
      buffer[idx + 2] := SetLenLow(buffer[idx + 2], len);
      buffer[idx + 3] := len / 16;
      headIdx := idx;
      ModUpTo(idx + HEADER_LEN + len, size);
      freeIdx := (idx + HEADER_LEN + len) % size;
    }

    /** The call of cba_reallocate_chunk when the chunk fits at idx. */
    method PlaceChunk(idx: nat, n: nat, len: nat, ghost k: nat) returns (chunk: Option<nat>)
      requires Valid() && len < UINT16 && n == ChunkLen(len)
      requires (k == |ring.Chunks()| && idx == freeIdx) || (k + 1 == |ring.Chunks()| && idx == headIdx)
      requires n + HEADER_LEN + idx < if idx < tailIdx then tailIdx else size
      modifies this`headIdx, this`freeIdx, this`ring, buffer
      ensures Valid()
      ensures Allocated(old(ring), len, k) == Some(ring) && chunk == Some(ring.Head() + HEADER_LEN)
      ensures SamePayloads(old(buffer[..]), buffer[..], old(ring), -1)
    {
      hide Tiled, AllEncoded, Allocated;
      ghost var r, before := ring, buffer[..];
      PlacedShape(r, idx, len, k);
      ReallocateChunk(idx, n);
      ring := Allocated(r, len, k).value;
      PlacedInRing(before, buffer[..], r, ring);
      chunk := Some(idx + HEADER_LEN);
    }

    /** cba_allocate_chunk, at the free index or over the last chunk */
    method AllocateChunk(idx: nat, len: nat, ghost k: nat) returns (chunk: Option<nat>)
      requires Valid() && len < UINT16
      requires (k == |ring.Chunks()| && idx == freeIdx) || (k + 1 == |ring.Chunks()| && idx == headIdx)
      modifies this`headIdx, this`freeIdx, this`ring, buffer
      ensures Valid()
      ensures chunk.Some? <==> Allocated(old(ring), len, k).Some?
      ensures chunk.Some? ==> ring == Allocated(old(ring), len, k).value && chunk.value == ring.Head() + HEADER_LEN
      ensures chunk.None? ==> ring == old(ring) && buffer[..] == old(buffer[..])
      ensures SamePayloads(old(buffer[..]), buffer[..], old(ring), -1)
    {
      hide Tiled, AllEncoded, Allocated;
      var n := ChunkLen(len);
      if idx < tailIdx {
        if n + HEADER_LEN < tailIdx - idx {
          chunk := PlaceChunk(idx, n, len, k);
          return;
        }
      } else {
        if n + HEADER_LEN < size - idx {
          chunk := PlaceChunk(idx, n, len, k);
          return;
        }
        if 0 < tailIdx {
          if n + HEADER_LEN < tailIdx {
            ghost var r, before := ring, buffer[..];
            WrappedShape(r, idx, len, k);
            ReallocateChunk(headIdx, size - (headIdx + HEADER_LEN));
            ghost var mid := buffer[..];
            ReallocateChunk(freeIdx, n);
            ring := Ring(r.size, Stretch(r), [Alloc(0, len)]);
            WrappedInRing(before, mid, buffer[..], r, idx, len);
            return Some(HEADER_LEN);
          }
        }
      }
      NoPlace(ring, idx, len, k);
      chunk := None;
    }

    /** cba_malloc */
    method Malloc(len: nat) returns (chunk: Option<nat>)
      requires Valid() && len < UINT16
      modifies this`headIdx, this`freeIdx, this`ring, buffer
      ensures Valid()
      ensures chunk.Some? <==> CbaRing.Malloc(old(ring), len).Some?
      ensures chunk.Some? ==> ring == CbaRing.Malloc(old(ring), len).value && chunk.value == ring.Head() + HEADER_LEN
      ensures chunk.None? ==> ring == old(ring) && buffer[..] == old(buffer[..])
      ensures SamePayloads(old(buffer[..]), buffer[..], old(ring), -1)
    {
      chunk := AllocateChunk(freeIdx, len, |ring.Chunks()|);
    }

    /** cba_realloc of the chunk at position k, or of NULL */
    method Realloc(chunk: Option<nat>, len: nat, ghost k: nat) returns (moved: Option<nat>)
      requires Valid() && PointsTo(chunk, k) && len < UINT16
      modifies this`headIdx, this`freeIdx, this`tailIdx, this`ring, buffer
      ensures Valid()
      ensures moved.Some? <==> chunk.Some? && CbaRing.Realloc(old(ring), k, len).Some?
      ensures moved.Some? ==> ring == CbaRing.Realloc(old(ring), k, len).value.ring
      ensures moved.Some? ==> moved.value == CbaRing.Realloc(old(ring), k, len).value.idx + HEADER_LEN
      ensures moved.None? ==> ring == old(ring) && buffer[..] == old(buffer[..])
      ensures SamePayloads(old(buffer[..]), buffer[..], old(ring), k)
      ensures moved.Some? ==> var n := old(ring).Chunks()[k].len;
                              && chunk.value + n <= buffer.Length && moved.value + n <= buffer.Length
                              && Slice(buffer[..], moved.value, n) == Slice(old(buffer[..]), chunk.value, n)
    {
      if chunk.None? {
        return None;
      }
      var idx := chunk.value - HEADER_LEN;
      ChunkInside(ring, k);
      LastIsHead(ring, k);
      assert Encoded(buffer[..], ring.Chunks()[k]);
      var prevLen := LenField(buffer[idx + 2], buffer[idx + 3]);
      if prevLen > len {
        return chunk;
      }
      if idx != headIdx {
        return None;
      }
      moved := ReallocLast(chunk.value, prevLen, len, k);
    }

    /** cba_realloc of the last chunk when it is too small. */
    method ReallocLast(chunk: nat, prevLen: nat, len: nat, ghost k: nat) returns (moved: Option<nat>)
      requires Valid() && PointsTo(Some(chunk), k) && k + 1 == |ring.Chunks()|
      requires ring.Chunks()[k].len == prevLen <= len < UINT16
      modifies this`headIdx, this`freeIdx, this`tailIdx, this`ring, buffer
      ensures Valid()
      ensures moved.Some? <==> CbaRing.Realloc(old(ring), k, len).Some?
      ensures moved.Some? ==> ring == CbaRing.Realloc(old(ring), k, len).value.ring
      ensures moved.Some? ==> moved.value == CbaRing.Realloc(old(ring), k, len).value.idx + HEADER_LEN
      ensures moved.None? ==> ring == old(ring) && buffer[..] == old(buffer[..])
      ensures SamePayloads(old(buffer[..]), buffer[..], old(ring), k)
      ensures moved.Some? ==> && chunk + prevLen <= buffer.Length && moved.value + prevLen <= buffer.Length
                              && Slice(buffer[..], moved.value, prevLen) == Slice(old(buffer[..]), chunk, prevLen)
    {
      hide Tiled, AllEncoded, Allocated, CbaRing.Realloc;
      ghost var r, before := ring, buffer[..];
      ReallocMatchesAllocate(r, k, len);
      moved := AllocateChunk(headIdx, len, k);
      PayloadSlice(before, buffer[..], r, k, prevLen);
      assert chunk + prevLen <= buffer.Length;
      if moved.Some? && moved.value != chunk {
        ghost var mid, r1 := buffer[..], ring;
        RelocatedRing(r, k, len, r1);
        Relocate(moved.value, chunk, prevLen, k);
        PayloadsComposed(before, mid, buffer[..], r, r1, k);
      }
    }

    /** The end of cba_realloc when the new chunk lies elsewhere: move the bytes, free the old chunk. */
    method Relocate(target: nat, source: nat, prevLen: nat, ghost k: nat)
      requires Valid() && k + 2 == |ring.Chunks()|
      requires ring.Chunks()[k + 1].idx + HEADER_LEN == target && prevLen <= ring.Chunks()[k + 1].len
      requires ring.Chunks()[k].idx + HEADER_LEN == source && prevLen <= ring.Chunks()[k].len
      modifies this`headIdx, this`freeIdx, this`tailIdx, this`ring, buffer
      ensures Valid() && ring == CbaRing.Free(old(ring), k)
      ensures SamePayloads(old(buffer[..]), buffer[..], old(ring), k + 1)
      ensures target + prevLen <= buffer.Length && source + prevLen <= buffer.Length
      ensures Slice(buffer[..], target, prevLen) == Slice(old(buffer[..]), source, prevLen)
    {
      hide Tiled, AllEncoded;
      ghost var r := ring;
      MovePayload(target, source, prevLen, k);
      ghost var mid := buffer[..];
      Free(Some(source), k);
      PayloadSlice(mid, buffer[..], r, k + 1, prevLen);
    }

    /** A caller's memcpy into the chunk at position k. */
    method Store(target: nat, bytes: seq<Byte>, ghost k: nat)
      requires Valid() && k < |ring.Chunks()|
      requires ring.Chunks()[k].idx + HEADER_LEN <= target && target + |bytes| <= ring.Chunks()[k].End()
      modifies buffer
      ensures Valid() && SamePayloads(old(buffer[..]), buffer[..], ring, k)
      ensures target + |bytes| <= buffer.Length && Slice(buffer[..], target, |bytes|) == bytes
    {
      ghost var before := buffer[..];
      ChunkInside(ring, k);
      forall q | 0 <= q < |bytes| {
        buffer[target + q] := bytes[q];
      }
      PayloadWritten(before, buffer[..], ring, k);
      assert Slice(buffer[..], target, |bytes|) == bytes;
    }

    /** The memmove of cba_realloc. */
    method MovePayload(target: nat, source: nat, prevLen: nat, ghost k: nat)
      requires Valid() && k + 2 == |ring.Chunks()|
      requires ring.Chunks()[k + 1].idx + HEADER_LEN == target && prevLen <= ring.Chunks()[k + 1].len
      requires ring.Chunks()[k].idx + HEADER_LEN == source && prevLen <= ring.Chunks()[k].len
      modifies buffer
      ensures Valid()
      ensures SamePayloads(old(buffer[..]), buffer[..], ring, k + 1)
      ensures target + prevLen <= buffer.Length && source + prevLen <= buffer.Length
      ensures Slice(buffer[..], target, prevLen) == Slice(old(buffer[..]), source, prevLen)
    {
      ghost var before := buffer[..];
      ChunkInside(ring, k);
      ChunkInside(ring, k + 1);
      forall q | 0 <= q < prevLen {
        buffer[target + q] := buffer[source + q];
      }
      PayloadWritten(before, buffer[..], ring, k + 1);
      SliceMoved(before, buffer[..], target, source, prevLen);
    }

    /** cba_free of the chunk at position k, or of NULL */
    method Free(chunk: Option<nat>, ghost k: nat)
      requires Valid() && PointsTo(chunk, k)
      modifies this`headIdx, this`freeIdx, this`tailIdx, this`ring, buffer
      ensures Valid()
      ensures ring == if chunk.Some? then CbaRing.Free(old(ring), k) else old(ring)
      ensures SamePayloads(old(buffer[..]), buffer[..], old(ring), -1)
    {
      if chunk.None? {
        return;
      }
      ghost var r, before := ring, buffer[..];
      var idx := chunk.value - HEADER_LEN;
      assert Encoded(buffer[..], ring.Chunks()[k]);
      buffer[idx + 2] := SetBound(buffer[idx + 2], false);
      assert buffer[..] == before[idx + 2 := SetBound(before[idx + 2], false)];
      UnboundInRing(before, buffer[..], r, k);
      UnbindShape(r, k);
      ring := Unbind(r, k);
      if idx == tailIdx {
        FreeTail(idx);
      }
    }

    /** The loop of cba_free over the unbound chunks at the tail, and the reset of an empty ring. */
    method FreeTail(start: nat)
      requires Valid() && start == tailIdx && ring.Chunks() != []
      modifies this`headIdx, this`freeIdx, this`tailIdx, this`ring
      ensures Valid() && ring == Coalesce(old(ring))
    {
      hide Tiled, Coalesce, DropTail;
      var idx := start;
      while idx != freeIdx
        invariant Tiled(ring) && ring.size == size && AllEncoded(buffer[..], ring)
        invariant idx == tailIdx
        invariant ring.Chunks() == [] ==> idx == freeIdx
        invariant ring.Chunks() != [] ==> idx == ring.Tail() && freeIdx == ring.Free() && headIdx == ring.Head()
        invariant Coalesce(ring) == Coalesce(old(ring))
        decreases |ring.Chunks()|
      {
        assert Encoded(buffer[..], ring.Chunks()[0]);
        if buffer[idx + 2] % 2 == 1 {
          break;
        }
        idx := NextChunkIdx(idx, 0);
        tailIdx := idx;
        DropTailShape(buffer[..], ring);
        ring := DropTail(ring);
      }
      FreeIsTailOnlyWhenEmpty(ring);
      CoalesceStops(ring);
      if tailIdx == freeIdx {
        tailIdx, headIdx, freeIdx := 0, 0, 0;
      }
    }
  }

  /** Writes inside one chunk's payload leave every header and every other payload alone. */
  lemma PayloadWritten(before: seq<Byte>, after: seq<Byte>, r: Ring, k: nat)
    requires Tiled(r) && AllEncoded(before, r) && r.size <= |before| == |after| && k < |r.Chunks()|
    requires forall p :: 0 <= p < |before| && !(r.Chunks()[k].idx + HEADER_LEN <= p < r.Chunks()[k].End()) ==>
               before[p] == after[p]
    ensures AllEncoded(after, r) && SamePayloads(before, after, r, k)
  {
    forall i | 0 <= i < |r.Chunks()|
      ensures Encoded(after, r.Chunks()[i])
      ensures i != k ==> r.Chunks()[i].End() <= r.Chunks()[k].idx || r.Chunks()[k].End() <= r.Chunks()[i].idx
    {
      assert Encoded(before, r.Chunks()[i]);
      if i != k {
        ChunksDisjoint(r, if i < k then i else k, if i < k then k else i);
      }
    }
  }

  /** The first n bytes of a payload that starts at p. */
  ghost function Slice(b: seq<Byte>, p: nat, n: nat): seq<Byte>
    requires p + n <= |b|
  {
    b[p..p + n]
  }

  lemma SliceMoved(before: seq<Byte>, after: seq<Byte>, target: nat, source: nat, n: nat)
    requires target + n <= |after| && source + n <= |before|
    requires forall p :: target <= p < target + n ==> after[p] == before[source + (p - target)]
    ensures Slice(after, target, n) == Slice(before, source, n)
  {
  }

  lemma PayloadSlice(before: seq<Byte>, after: seq<Byte>, r: Ring, k: nat, n: nat)
    requires Tiled(r) && r.size <= |before| == |after| && k < |r.Chunks()| && SamePayloads(before, after, r, -1)
    requires n <= r.Chunks()[k].len
    ensures r.Chunks()[k].End() <= |before|
    ensures Slice(after, r.Chunks()[k].idx + HEADER_LEN, n) == Slice(before, r.Chunks()[k].idx + HEADER_LEN, n)
  {
    ChunkInside(r, k);
    var p := r.Chunks()[k].idx + HEADER_LEN;
    assert forall q :: p <= q < p + n ==> before[q] == after[q];
  }

  /** The ring between the two halves of a relocation. */
  lemma RelocatedRing(r: Ring, k: nat, len: nat, r1: Ring)
    requires Tiled(r) && k + 1 == |r.Chunks()| && Wraps(r, r.Head(), len) && r.Head() + HEADER_LEN <= r.size
    requires r1 == Ring(r.size, Stretch(r), [Alloc(0, len)])
    ensures |r1.Chunks()| == k + 2 && r1.Chunks()[k + 1] == Alloc(0, len)
    ensures r1.Chunks()[k].idx == r.Chunks()[k].idx && r.Chunks()[k].len <= r1.Chunks()[k].len
    ensures forall i :: 0 <= i < k ==> r1.Chunks()[i] == r.Chunks()[i]
  {
    ChunkInside(r, k);
  }

  lemma PayloadsComposed(before: seq<Byte>, mid: seq<Byte>, after: seq<Byte>, r: Ring, r1: Ring, k: nat)
    requires k + 1 == |r.Chunks()| < |r1.Chunks()|
    requires forall i :: 0 <= i < k ==> r1.Chunks()[i] == r.Chunks()[i]
    requires SamePayloads(before, mid, r, -1) && SamePayloads(mid, after, r1, k + 1)
    ensures SamePayloads(before, after, r, k)
  {
    forall i, p | 0 <= i < k && r.Chunks()[i].idx + HEADER_LEN <= p < r.Chunks()[i].End() && p < |before|
      ensures before[p] == after[p]
    {
      assert r.Chunks()[i] == r1.Chunks()[i];
      assert before[p] == mid[p];
    }
  }

  /** Only the last chunk starts at head_idx. */
  lemma LastIsHead(r: Ring, k: nat)
    requires Tiled(r) && k < |r.Chunks()|
    ensures r.Chunks()[k].idx == r.Head() <==> k == |r.Chunks()| - 1
  {
    if k < |r.Chunks()| - 1 {
      ChunksDisjoint(r, k, |r.Chunks()| - 1);
    }
  }

  /** The three outcomes of cba_realloc on the last chunk, in terms of the allocation it makes. */
  lemma ReallocMatchesAllocate(r: Ring, k: nat, len: nat)
    requires Tiled(r) && k + 1 == |r.Chunks()| && r.Chunks()[k].len <= len < UINT16
    ensures Realloc(r, k, len).Some? <==> Allocated(r, len, k).Some?
    ensures Realloc(r, k, len).Some? ==>
              var r1 := Allocated(r, len, k).value;
              if r1.Head() == r.Head() then Realloc(r, k, len).value == Realloced(r.Head(), r1)
              else && Wraps(r, r.Head(), len) && r.Head() + HEADER_LEN <= r.size
                   && r1 == Ring(r.size, Stretch(r), [Alloc(0, len)])
                   && r.Chunks()[k].len <= ChunkLen(len) && k < |r1.Chunks()|
                   && Realloc(r, k, len).value == Realloced(0, Free(r1, k))
  {
    ChunkInside(r, k);
    ChunkLenHolds(len);
  }

  /** The empty ring. */
  lemma InitShape(size: nat, b: seq<Byte>)
    ensures var r := Init(size);
            Tiled(r) && AllEncoded(b, r) && r.Free() == 0 && r.Head() == 0 && r.Tail() == 0
  {
  }

  /** The indices after the bound flag of chunk k is cleared. */
  lemma UnbindShape(r: Ring, k: nat)
    requires Tiled(r) && k < |r.Chunks()|
    ensures var r' := Unbind(r, k);
            && Tiled(r') && r'.size == r.size && r'.Chunks() != []
            && r'.Head() == r.Head() && r'.Free() == r.Free() && r'.Tail() == r.Tail()
    ensures r.Chunks()[k].idx == r.Tail() <==> k == 0
    ensures 0 < k ==> Free(r, k) == Unbind(r, k)
  {
    UnbindTiled(r, k);
    if 0 < k {
      ChunksDisjoint(r, 0, k);
    }
  }

  /** One round of coalescing: the oldest chunk is unbound and is dropped. */
  lemma DropTailShape(b: seq<Byte>, r: Ring)
    requires Tiled(r) && r.Chunks() != [] && !r.Chunks()[0].bound && AllEncoded(b, r)
    ensures r.hi != [] && Coalesce(r) == Coalesce(DropTail(r)) && AllEncoded(b, DropTail(r))
    ensures var r' := DropTail(r);
            && Tiled(r') && r'.size == r.size && r'.Chunks() == r.Chunks()[1..]
            && (r'.Chunks() != [] ==> r'.Head() == r.Head() && r'.Free() == r.Free() && r'.Tail() == r.Chunks()[1].idx)
  {
    DropTailTiled(r);
    assert forall i :: 0 <= i < |r.Chunks()| - 1 ==> r.Chunks()[1..][i] == r.Chunks()[i + 1];
  }

  /** The end of coalescing: nothing is left, or the oldest chunk is bound. */
  lemma CoalesceStops(r: Ring)
    requires Tiled(r) && (r.Chunks() != [] ==> r.Chunks()[0].bound)
    ensures Coalesce(r) == r && (r.Free() == r.Tail() <==> r.Chunks() == [])
    ensures r.Chunks() == [] ==> r.Free() == 0 && r.Tail() == 0 && r.Head() == 0
  {
    FreeIsTailOnlyWhenEmpty(r);
  }

  /** Clearing the bound bit of chunk k. */
  lemma UnboundInRing(before: seq<Byte>, after: seq<Byte>, r: Ring, k: nat)
    requires Tiled(r) && AllEncoded(before, r) && r.size <= |before| == |after| && k < |r.Chunks()|
    requires var b := r.Chunks()[k].idx + 2; b < |before| && after == before[b := SetBound(before[b], false)]
    ensures AllEncoded(after, Unbind(r, k)) && SamePayloads(before, after, r, -1)
  {
    hide Tiled, Unbind;
    UnbindTiled(r, k);
    forall i | 0 <= i < |r.Chunks()| && i != k
      ensures Encoded(after, r.Chunks()[i])
      ensures r.Chunks()[i].End() <= r.Chunks()[k].idx || r.Chunks()[k].End() <= r.Chunks()[i].idx
    {
      ChunksDisjoint(r, if i < k then i else k, if i < k then k else i);
      EncodedKept(before, after, r.Chunks()[k].idx, r.Chunks()[i]);
    }
  }
}
