/**
 Whole runs of the allocator of source/cba.c as its callers see it: which chunks they hold, which
 chunks the ring believes to be bound, and when the two agree.
 */
module CbaRuns {
  import opened Wrappers
  import opened CbaRing

  /** One call; a chunk is named by the index of its header. */
  datatype Op = OpMalloc(len: nat) | OpFree(idx: nat) | OpRealloc(idx: nat, len: nat)

  datatype World = World(ring: Ring, held: set<nat>)

  function Find(cs: seq<Chunk>, idx: nat): (k: nat)
    ensures k <= |cs|
    ensures k < |cs| ==> cs[k].idx == idx
    ensures forall i :: 0 <= i < k ==> cs[i].idx != idx
  {
    if cs == [] || cs[0].idx == idx then 0 else 1 + Find(cs[1..], idx)
  }

  /** Callers free and resize only what they hold. */
  predicate Legal(w: World, op: Op) {
    op.OpMalloc? || op.idx in w.held
  }

  function Step(w: World, op: Op): (w': World)
    requires Tiled(w.ring)
    ensures Tiled(w'.ring)
  {
    match op
    case OpMalloc(len) =>
      MallocTiled(w.ring, len);
      var m := Malloc(w.ring, len);
      if m.None? then w else World(m.value, w.held + {m.value.Head()})
    case OpFree(idx) =>
      var k := Find(w.ring.Chunks(), idx);
      if k == |w.ring.Chunks()| then w
      else
        FreeEffect(w.ring, k);
        World(Free(w.ring, k), w.held - {idx})
    case OpRealloc(idx, len) =>
      var k := Find(w.ring.Chunks(), idx);
      if k == |w.ring.Chunks()| || Realloc(w.ring, k, len).None? then w
      else
        ReallocTiled(w.ring, k, len);
        var m := Realloc(w.ring, k, len).value;
        World(m.ring, w.held - {idx} + {m.idx})
  }

  function Run(w: World, ops: seq<Op>): (w': World)
    requires Tiled(w.ring)
    ensures Tiled(w'.ring)
    decreases |ops|
  {
    if ops == [] then w else Run(Step(w, ops[0]), ops[1..])
  }

  predicate LegalRun(w: World, ops: seq<Op>)
    requires Tiled(w.ring)
    decreases |ops|
  {
    ops == [] || (Legal(w, ops[0]) && LegalRun(Step(w, ops[0]), ops[1..]))
  }

  function Start(size: nat): World {
    World(Init(size), {})
  }

  // ---------------------------------------------------------------- bound chunks

  /** The header indices of the chunks whose bound flag is set. */
  function Bound(cs: seq<Chunk>): set<nat> {
    set i | 0 <= i < |cs| && cs[i].bound :: cs[i].idx
  }

  /** A held chunk is bound, and a ring that is not empty starts with a bound chunk. */
  ghost predicate Sound(w: World) {
    && Tiled(w.ring)
    && w.held <= Bound(w.ring.Chunks())
    && (w.ring.Chunks() != [] ==> w.ring.Chunks()[0].bound)
  }

  /** A malloc that wraps although the caller has already freed the newest chunk. Wrapping binds it again. */
  predicate Rebinds(w: World, op: Op)
    requires Tiled(w.ring)
  {
    op.OpMalloc? && Wraps(w.ring, w.ring.Free(), op.len) && w.ring.Head() !in w.held
  }

  predicate NeverRebinds(w: World, ops: seq<Op>)
    requires Tiled(w.ring)
    decreases |ops|
  {
    ops == [] || (!Rebinds(w, ops[0]) && NeverRebinds(Step(w, ops[0]), ops[1..]))
  }

  lemma DistinctStarts(r: Ring)
    requires Tiled(r)
    ensures forall i, j :: 0 <= i < j < |r.Chunks()| ==> r.Chunks()[i].idx != r.Chunks()[j].idx
  {
    forall i, j | 0 <= i < j < |r.Chunks()| ensures r.Chunks()[i].idx != r.Chunks()[j].idx {
      ChunksDisjoint(r, i, j);
    }
  }

  lemma BoundAppend(cs: seq<Chunk>, c: Chunk)
    requires c.bound
    ensures Bound(cs + [c]) == Bound(cs) + {c.idx}
  {
    var cs' := cs + [c];
    assert cs'[|cs|] == c;
    forall i | 0 <= i < |cs| && cs[i].bound ensures cs[i].idx in Bound(cs') {
      assert cs'[i] == cs[i];
    }
  }

  /** Changing one chunk without moving it. */
  lemma BoundUpdate(cs: seq<Chunk>, k: nat, c: Chunk)
    requires k < |cs| && c.idx == cs[k].idx
    requires forall i, j :: 0 <= i < j < |cs| ==> cs[i].idx != cs[j].idx
    ensures Bound(cs[k := c]) == if c.bound then Bound(cs) + {c.idx} else Bound(cs) - {c.idx}
  {
    var cs' := cs[k := c];
    assert cs'[k] == c;
    forall i | 0 <= i < |cs| && i != k ensures cs'[i] == cs[i] && cs[i].idx != c.idx {
    }
    forall x | x in Bound(cs) && x != c.idx ensures x in Bound(cs') {
      var i :| 0 <= i < |cs| && cs[i].bound && cs[i].idx == x;
      assert cs'[i] == cs[i];
    }
  }

  lemma BoundDrop(cs: seq<Chunk>, n: nat)
    requires n <= |cs| && forall i :: 0 <= i < n ==> !cs[i].bound
    ensures Bound(cs[n..]) == Bound(cs)
  {
    forall i | 0 <= i < |cs| && cs[i].bound ensures cs[i].idx in Bound(cs[n..]) {
      assert cs[n..][i - n] == cs[i];
    }
  }

  lemma FreeBound(r: Ring, k: nat)
    requires Tiled(r) && k < |r.Chunks()|
    ensures Bound(Free(r, k).Chunks()) == Bound(r.Chunks()) - {r.Chunks()[k].idx}
    ensures k == 0 && Free(r, k).Chunks() != [] ==> Free(r, k).Chunks()[0].bound
    ensures 0 < k ==> Free(r, k).Chunks() != [] && Free(r, k).Chunks()[0] == r.Chunks()[0]
  {
    FreeEffect(r, k);
    DistinctStarts(r);
    var cs := r.Chunks()[k := r.Chunks()[k].(bound := false)];
    BoundUpdate(r.Chunks(), k, r.Chunks()[k].(bound := false));
    BoundDrop(cs, Unbound(cs));
  }

  /** The ring of a wrap: one chunk more at 0, the newest old chunk bound. */
  lemma WrapBound(r: Ring, idx: nat, len: nat)
    requires Tiled(r) && Wraps(r, idx, len)
    ensures r.Head() + HEADER_LEN <= r.size && 0 < r.Tail() <= r.Head() && r.Head() == Last(r.hi).idx
    ensures var r' := Ring(r.size, Stretch(r), [Alloc(0, len)]);
            && Tiled(r') && Bound(r'.Chunks()) == Bound(r.Chunks()) + {r.Head()} + {0}
            && r'.Chunks()[0].idx == r.Tail() && (r.Chunks()[0].bound ==> r'.Chunks()[0].bound)
            && |r'.Chunks()| == |r.Chunks()| + 1 && r'.Chunks()[|r.Chunks()| - 1].idx == r.Head()
    ensures forall c :: c in r.Chunks() ==> c.idx != 0
  {
    WrapTiled(r, idx, len);
    var r' := Ring(r.size, Stretch(r), [Alloc(0, len)]);
    DistinctStarts(r);
    ChunkInside(r, |r.Chunks()| - 1);
    assert r.Chunks() == r.hi;
    BoundUpdate(r.hi, |r.hi| - 1, Last(Stretch(r)));
    BoundAppend(Stretch(r), Alloc(0, len));
    forall c | c in r.Chunks() ensures c.idx != 0 {
      var i :| 0 <= i < |r.Chunks()| && r.Chunks()[i] == c;
      ChunkInside(r, i);
    }
  }

  lemma MallocBound(r: Ring, len: nat)
    requires Tiled(r) && Malloc(r, len).Some?
    ensures var r' := Malloc(r, len).value;
            && Bound(r'.Chunks()) ==
               Bound(r.Chunks()) + {r'.Head()} + (if Wraps(r, r.Free(), len) then {r.Head()} else {})
            && r'.Chunks() != []
            && (r.Chunks() == [] ==> r'.Chunks()[0].bound)
            && (r.Chunks() != [] && r.Chunks()[0].bound ==> r'.Chunks()[0].bound)
    ensures forall c :: c in r.Chunks() ==> c.idx != Malloc(r, len).value.Head()
  {
    if Wraps(r, r.Free(), len) {
      WrapBound(r, r.Free(), len);
    } else {
      var r' := Malloc(r, len).value;
      var c := Alloc(r.Free(), len);
      MallocTiled(r, len);
      assert r'.Chunks() == r.Chunks() + [c];
      BoundAppend(r.Chunks(), c);
      DistinctStarts(r');
      forall c' | c' in r.Chunks() ensures c'.idx != c.idx {
        var i :| 0 <= i < |r.Chunks()| && r.Chunks()[i] == c';
        assert r'.Chunks()[i] == c' && r'.Chunks()[|r.Chunks()|] == c;
      }
    }
  }

  lemma ReallocBound(r: Ring, k: nat, len: nat)
    requires Tiled(r) && k < |r.Chunks()| && r.Chunks()[k].bound && Realloc(r, k, len).Some?
    ensures var m := Realloc(r, k, len).value;
            && Bound(m.ring.Chunks()) == Bound(r.Chunks()) - {r.Chunks()[k].idx} + {m.idx}
            && (r.Chunks()[0].bound && m.ring.Chunks() != [] ==> m.ring.Chunks()[0].bound)
            && (m.idx != r.Chunks()[k].idx ==> forall c :: c in r.Chunks() ==> c.idx != m.idx)
  {
    var c := r.Chunks()[k];
    var m := Realloc(r, k, len).value;
    assert c.idx in Bound(r.Chunks());
    ChunkInside(r, k);
    DistinctStarts(r);
    if c.len > len {
    } else if Alloc(c.idx, len).End() < (if r.lo != [] then r.Tail() else r.size) {
      assert m.ring.Chunks() == r.Chunks()[k := Alloc(c.idx, len)];
      BoundUpdate(r.Chunks(), k, Alloc(c.idx, len));
    } else {
      WrapBound(r, c.idx, len);
      FreeBound(Ring(r.size, Stretch(r), [Alloc(0, len)]), k);
    }
  }

  // ---------------------------------------------------------------- all runs

  lemma StepSound(w: World, op: Op)
    requires Sound(w) && Legal(w, op)
    ensures Sound(Step(w, op))
  {
    match op
    case OpMalloc(len) =>
      if Malloc(w.ring, len).Some? {
        MallocBound(w.ring, len);
      }
    case OpFree(idx) =>
      var k := Find(w.ring.Chunks(), idx);
      if k < |w.ring.Chunks()| {
        FreeBound(w.ring, k);
      }
    case OpRealloc(idx, len) =>
      var k := Find(w.ring.Chunks(), idx);
      HeldIsBound(w, idx);
      if Realloc(w.ring, k, len).Some? {
        ReallocBound(w.ring, k, len);
      }
  }

  /** A held chunk is found at its position, bound. */
  lemma HeldIsBound(w: World, idx: nat)
    requires Sound(w) && idx in w.held
    ensures var k := Find(w.ring.Chunks(), idx); k < |w.ring.Chunks()| && w.ring.Chunks()[k].bound
  {
    DistinctStarts(w.ring);
    var i :| 0 <= i < |w.ring.Chunks()| && w.ring.Chunks()[i].bound && w.ring.Chunks()[i].idx == idx;
    assert Find(w.ring.Chunks(), idx) == i;
  }

  /** In every run every chunk a caller holds is a bound chunk of the ring, and the ring tiles its region. */
  lemma {:induction false} RunSound(w: World, ops: seq<Op>)
    requires Sound(w) && LegalRun(w, ops)
    ensures Sound(Run(w, ops))
    decreases |ops|
  {
    if ops != [] {
      StepSound(w, ops[0]);
      RunSound(Step(w, ops[0]), ops[1..]);
    }
  }

  lemma StepKeepsExact(w: World, op: Op)
    requires Sound(w) && Legal(w, op) && w.held == Bound(w.ring.Chunks()) && !Rebinds(w, op)
    ensures Step(w, op).held == Bound(Step(w, op).ring.Chunks())
  {
    match op
    case OpMalloc(len) =>
      if Malloc(w.ring, len).Some? {
        MallocBound(w.ring, len);
      }
    case OpFree(idx) =>
      HeldIsBound(w, idx);
      FreeBound(w.ring, Find(w.ring.Chunks(), idx));
    case OpRealloc(idx, len) =>
      var k := Find(w.ring.Chunks(), idx);
      HeldIsBound(w, idx);
      if Realloc(w.ring, k, len).Some? {
        ReallocBound(w.ring, k, len);
      }
  }

  /** A bound chunk that nobody holds stays bound and unheld. */
  lemma StepKeepsLost(w: World, op: Op, lost: nat)
    requires Sound(w) && Legal(w, op) && lost in Bound(w.ring.Chunks()) && lost !in w.held
    ensures lost in Bound(Step(w, op).ring.Chunks()) && lost !in Step(w, op).held
  {
    match op
    case OpMalloc(len) =>
      if Malloc(w.ring, len).Some? {
        MallocBound(w.ring, len);
      }
    case OpFree(idx) =>
      HeldIsBound(w, idx);
      FreeBound(w.ring, Find(w.ring.Chunks(), idx));
    case OpRealloc(idx, len) =>
      var k := Find(w.ring.Chunks(), idx);
      HeldIsBound(w, idx);
      if Realloc(w.ring, k, len).Some? {
        ReallocBound(w.ring, k, len);
      }
  }

  lemma {:induction false} RunKeepsLost(w: World, ops: seq<Op>, lost: nat)
    requires Sound(w) && LegalRun(w, ops) && lost in Bound(w.ring.Chunks()) && lost !in w.held
    ensures lost in Bound(Run(w, ops).ring.Chunks()) && lost !in Run(w, ops).held
    decreases |ops|
  {
    if ops != [] {
      StepSound(w, ops[0]);
      StepKeepsLost(w, ops[0], lost);
      RunKeepsLost(Step(w, ops[0]), ops[1..], lost);
    }
  }

  /** Rebinding loses the newest old chunk. */
  lemma RebindLoses(w: World, op: Op)
    requires Sound(w) && Rebinds(w, op)
    ensures w.ring.Head() in Bound(Step(w, op).ring.Chunks()) && w.ring.Head() !in Step(w, op).held
  {
    WrapBound(w.ring, w.ring.Free(), op.len);
    MallocBound(w.ring, op.len);
  }

  /** After a run the bound chunks are exactly the held ones iff no malloc of the run wrapped over a newest
      chunk that had already been freed. */
  lemma {:induction false} BoundIsHeldIff(w: World, ops: seq<Op>)
    requires Sound(w) && LegalRun(w, ops) && w.held == Bound(w.ring.Chunks())
    ensures Run(w, ops).held == Bound(Run(w, ops).ring.Chunks()) <==> NeverRebinds(w, ops)
    decreases |ops|
  {
    if ops != [] {
      StepSound(w, ops[0]);
      if Rebinds(w, ops[0]) {
        RebindLoses(w, ops[0]);
        RunKeepsLost(Step(w, ops[0]), ops[1..], w.ring.Head());
      } else {
        StepKeepsExact(w, ops[0]);
        BoundIsHeldIff(Step(w, ops[0]), ops[1..]);
      }
    }
  }

  /** When the caller has freed everything, in whatever order, the ring is back in its initial state iff no
      malloc rebound a freed chunk. */
  lemma DrainedIff(size: nat, ops: seq<Op>)
    requires LegalRun(Start(size), ops) && Run(Start(size), ops).held == {}
    ensures Run(Start(size), ops).ring.Chunks() == [] <==> NeverRebinds(Start(size), ops)
    ensures Run(Start(size), ops).ring.Chunks() == [] ==>
              var r := Run(Start(size), ops).ring; r.Free() == 0 && r.Head() == 0 && r.Tail() == 0
  {
    RunSound(Start(size), ops);
    BoundIsHeldIff(Start(size), ops);
    var cs := Run(Start(size), ops).ring.Chunks();
    if cs != [] {
      assert cs[0].idx in Bound(cs);
    }
  }

  /** Without rebinding a nonempty ring starts on a chunk that is held. */
  lemma TailIsHeld(size: nat, ops: seq<Op>)
    requires LegalRun(Start(size), ops) && NeverRebinds(Start(size), ops)
    ensures var w := Run(Start(size), ops); w.ring.Chunks() != [] ==> w.ring.Tail() in w.held
  {
    RunSound(Start(size), ops);
    BoundIsHeldIff(Start(size), ops);
  }

  // ---------------------------------------------------------------- the newest chunk's length

  /** The newest chunk is as long as malloc rounds: a wrap stretches only the one before it. */
  ghost predicate Rounded(r: Ring) {
    r.Chunks() != [] ==> 0 < Last(r.Chunks()).len && Last(r.Chunks()).len % 4 == 0
  }

  /** The rounded length of the request does not wrap round 16 bits. */
  predicate Holdable(op: Op) {
    match op
    case OpMalloc(len) => len <= 65532
    case OpFree(_) => true
    case OpRealloc(_, len) => len <= 65532
  }

  lemma FreeRounded(r: Ring, k: nat)
    requires Tiled(r) && Rounded(r) && k < |r.Chunks()|
    ensures Rounded(Free(r, k))
  {
    FreeEffect(r, k);
  }

  lemma MallocRounded(r: Ring, len: nat)
    requires Tiled(r) && len <= 65532 && Malloc(r, len).Some?
    ensures Last(Malloc(r, len).value.Chunks()) == Alloc(Malloc(r, len).value.Head(), len)
    ensures Rounded(Malloc(r, len).value)
  {
    ChunkLenHolds(len);
  }

  lemma ReallocRounded(r: Ring, k: nat, len: nat)
    requires Tiled(r) && Rounded(r) && k < |r.Chunks()| && len <= 65532 && Realloc(r, k, len).Some?
    ensures Rounded(Realloc(r, k, len).value.ring)
  {
    ChunkInside(r, k);
    ChunkLenHolds(len);
    var c := r.Chunks()[k];
    if c.len <= len && !(Alloc(c.idx, len).End() < (if r.lo != [] then r.Tail() else r.size)) {
      RelocatedIsLast(r, k, len);
    }
  }

  lemma StepRounded(w: World, op: Op)
    requires Tiled(w.ring) && Rounded(w.ring) && Holdable(op)
    ensures Rounded(Step(w, op).ring)
  {
    hide Rounded, Tiled, Malloc, Free, Realloc;
    match op
    case OpMalloc(len) =>
      if Malloc(w.ring, len).Some? {
        MallocRounded(w.ring, len);
      }
    case OpFree(idx) =>
      var k := Find(w.ring.Chunks(), idx);
      if k < |w.ring.Chunks()| {
        FreeRounded(w.ring, k);
      }
    case OpRealloc(idx, len) =>
      var k := Find(w.ring.Chunks(), idx);
      if k < |w.ring.Chunks()| && Realloc(w.ring, k, len).Some? {
        ReallocRounded(w.ring, k, len);
      }
  }

  lemma {:induction false} RunRounded(w: World, ops: seq<Op>)
    requires Tiled(w.ring) && Rounded(w.ring) && forall op :: op in ops ==> Holdable(op)
    ensures Rounded(Run(w, ops).ring)
    decreases |ops|
  {
    if ops != [] {
      StepRounded(w, ops[0]);
      RunRounded(Step(w, ops[0]), ops[1..]);
    }
  }

  /** After any run, resizing a held chunk to at most its length: refused exactly if the length is its own and it is
      not the newest chunk; otherwise nothing changes at all. */
  lemma SmallReallocIff(size: nat, ops: seq<Op>, idx: nat, len: nat)
    requires LegalRun(Start(size), ops) && forall op :: op in ops ==> Holdable(op)
    requires idx in Run(Start(size), ops).held
    requires var cs := Run(Start(size), ops).ring.Chunks(); Find(cs, idx) < |cs| && len <= cs[Find(cs, idx)].len
    ensures var r := Run(Start(size), ops).ring;
            var k := Find(r.Chunks(), idx);
            && (Realloc(r, k, len).None? <==> len == r.Chunks()[k].len && k + 1 < |r.Chunks()|)
            && (Realloc(r, k, len).Some? ==> Realloc(r, k, len) == Some(Realloced(idx, r)))
  {
    RunSound(Start(size), ops);
    RunRounded(Start(size), ops);
    HeldIsBound(Run(Start(size), ops), idx);
    var r := Run(Start(size), ops).ring;
    SmallRequestRefusedIff(r, Find(r.Chunks(), idx), len);
  }

  // ---------------------------------------------------------------- an example of rebinding

  lemma RunCons(w: World, op: Op, ops: seq<Op>)
    requires Tiled(w.ring) && Legal(w, op) && LegalRun(Step(w, op), ops)
    ensures LegalRun(w, [op] + ops) && Run(w, [op] + ops) == Run(Step(w, op), ops)
  {
    assert ([op] + ops)[1..] == ops;
  }

  /** Such a run exists: the newest chunk is freed behind a held one and the next malloc wraps over it. Nothing
      is held at the end, yet the ring still has a chunk. */
  lemma RebindingHappens() returns (ops: seq<Op>)
    ensures LegalRun(Start(40), ops) && Run(Start(40), ops).held == {}
    ensures Run(Start(40), ops).ring.Chunks() != []
  {
    var a, b, c := Chunk(0, 12, true), Chunk(16, 4, true), Chunk(24, 4, true);
    var w3, w4 := World(Ring(40, [a, b, c], []), {0, 16, 24}), World(Ring(40, [b, c], []), {16, 24});
    var w5 := World(Ring(40, [b, c.(bound := false)], []), {16});
    var end := RebindingEnds(w5);
    assert Find(w4.ring.Chunks(), 24) == 1;
    assert Step(w4, OpFree(24)) == w5;
    RunCons(w4, OpFree(24), end);
    FreeFirst(w3, w4, 0);
    RunCons(w3, OpFree(0), [OpFree(24)] + end);
    ops := RebindingStarts(w3, [OpFree(0)] + ([OpFree(24)] + end));
  }

  /** Freeing the oldest chunk when the next one is bound. */
  lemma FreeFirst(w: World, w': World, idx: nat)
    requires Tiled(w.ring) && w.ring.hi != [] && w.ring.hi[0].idx == idx
    requires w'.ring == DropTail(w.ring) && w'.ring.hi != [] && w'.ring.hi[0].bound && w'.held == w.held - {idx}
    ensures Step(w, OpFree(idx)) == w'
  {
    assert Find(w.ring.Chunks(), idx) == 0;
    var u := Unbind(w.ring, 0);
    assert DropTail(u) == w'.ring;
    assert Coalesce(u) == Coalesce(w'.ring) == w'.ring;
  }

  /** The rest of the example: the malloc that wraps, then the two frees. */
  lemma RebindingEnds(w5: World) returns (ops: seq<Op>)
    requires w5 == World(Ring(40, [Chunk(16, 4, true), Chunk(24, 4, false)], []), {16})
    ensures LegalRun(w5, ops) && Run(w5, ops).held == {} && Run(w5, ops).ring.Chunks() != []
  {
    var c := Chunk(24, 12, true);
    var w6 := World(Ring(40, [Chunk(16, 4, true), c], [Chunk(0, 8, true)]), {16, 0});
    var w7 := World(Ring(40, [c], [Chunk(0, 8, true)]), {0});
    assert Step(w7, OpFree(0)) == World(Ring(40, [c], [Chunk(0, 8, false)]), {});
    RunCons(w7, OpFree(0), []);
    FreeFirst(w6, w7, 16);
    RunCons(w6, OpFree(16), [OpFree(0)]);
    assert Step(w5, OpMalloc(8)) == w6;
    RunCons(w5, OpMalloc(8), [OpFree(16)] + [OpFree(0)]);
    ops := [OpMalloc(8)] + ([OpFree(16)] + [OpFree(0)]);
  }

  /** Three allocations lead to the world w3 of the example. */
  lemma RebindingStarts(w3: World, rest: seq<Op>) returns (ops: seq<Op>)
    requires w3 == World(Ring(40, [Chunk(0, 12, true), Chunk(16, 4, true), Chunk(24, 4, true)], []), {0, 16, 24})
    requires LegalRun(w3, rest)
    ensures LegalRun(Start(40), ops) && Run(Start(40), ops) == Run(w3, rest)
  {
    var w1, w2 := World(Ring(40, w3.ring.hi[..1], []), {0}), World(Ring(40, w3.ring.hi[..2], []), {0, 16});
    assert Step(w2, OpMalloc(4)) == w3;
    RunCons(w2, OpMalloc(4), rest);
    assert Step(w1, OpMalloc(4)) == w2;
    RunCons(w1, OpMalloc(4), [OpMalloc(4)] + rest);
    assert Step(Start(40), OpMalloc(12)) == w1;
    ops := [OpMalloc(12)] + ([OpMalloc(4)] + ([OpMalloc(4)] + rest));
    RunCons(Start(40), OpMalloc(12), [OpMalloc(4)] + ([OpMalloc(4)] + rest));
  }
}
