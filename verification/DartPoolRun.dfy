/**
 A run of a DART link after which its pool is not empty although every message is done: of three messages the newest
 one has the highest priority, so its chunk is freed behind one that is still held, and the next malloc wraps over it.
 */
module DartPoolRun {
  import opened Wrappers
  import opened DartFrame
  import opened Timers
  import opened DartProtocol
  import opened DartRuns
  import opened DartPair
  import opened DartMemory
  import opened CbaRing
  import C = CbaRuns
  import DartStreams
  import X = DartStaleAck

  const FIRST := Msg(0, [1, 1, 1, 1, 1])
  const LOW := Msg(1, [2])
  const HIGH := Msg(2, [3])
  const LATE := Msg(3, [4])
  const SIZE := 128

  /** A message that is acknowledged. */
  function Ended(l: Log, m: Msg, prio: nat): Log {
    Then(Then(Then(l, TransferDone(m, |m.data|)), Dequeued(m, prio)), Freed(m.id))
  }

  function L1(): Log { X.Attempted(Then(Then(Empty, Queued(FIRST, 1)), Started(0, true, true)), FIRST) }
  function L2(): Log { Then(L1(), Queued(LOW, 2)) }
  function L3(): Log { Then(L2(), Queued(HIGH, 0)) }
  function L4(): Log { X.Attempted(Then(Ended(L3(), FIRST, 1), Started(2, true, true)), HIGH) }
  function L5(): Log { X.Attempted(Then(Ended(L4(), HIGH, 0), Started(1, true, true)), LOW) }
  function L6(): Log { Then(L5(), Queued(LATE, 1)) }
  function L7(): Log { X.Attempted(Then(Ended(L6(), LOW, 2), Started(3, true, true)), LATE) }
  function L8(): Log { Then(Ended(L7(), LATE, 1), TransferComplete(0, 4)) }

  // ---------------------------------------------------------------- the link

  function At(high: seq<Msg>, normal: seq<Msg>, low: seq<Msg>, inFlight: Option<nat>, nextId: nat, l: Log): Link {
    Link([high, normal, low], inFlight, None, STOPPED, 0, if inFlight.Some? then Timer(0, ACK_TIMER) else STOPPED,
         STOPPED, 0, [], STOPPED, STOPPED, true, true, true, 0, nextId, l)
  }

  function S1(): Link { At([], [FIRST], [], Some(1), 1, L1()) }
  function S2(): Link { At([], [FIRST], [LOW], Some(1), 2, L2()) }
  function S3(): Link { At([HIGH], [FIRST], [LOW], Some(1), 3, L3()) }
  function S4(): Link { At([HIGH], [], [LOW], Some(0), 3, L4()) }
  function S5(): Link { At([], [], [LOW], Some(2), 3, L5()) }
  function S6(): Link { At([], [LATE], [LOW], Some(2), 4, L6()) }
  function S7(): Link { At([], [LATE], [], Some(1), 4, L7()) }
  function S8(): Link { At([], [], [], None, 4, L8()) }

  lemma SendFirst()
    ensures Step(X.Small(), DartProtocol.Init(true, true, 0), DartRuns.Send(1, FIRST.data, true)) == S1()
  {
    hide FrameOf;
    var none: seq<Msg> := [];
    assert none + [FIRST] == [FIRST];
  }

  lemma SendMore()
    ensures Step(X.Small(), S1(), DartRuns.Send(2, LOW.data, true)) == S2()
    ensures Step(X.Small(), S2(), DartRuns.Send(0, HIGH.data, true)) == S3()
    ensures Step(X.Small(), S5(), DartRuns.Send(1, LATE.data, true)) == S6()
  {
    hide X.Attempted, Ended;
    var none: seq<Msg> := [];
    assert none + [LOW] == [LOW] && none + [HIGH] == [HIGH] && none + [LATE] == [LATE];
  }

  lemma AckFirst()
    ensures DartStreams.Timely(S3()) && Step(X.Small(), S3(), Char(ACK)) == S4()
  {
    hide FrameOf, L3;
    assert [FIRST][1..] == [];
  }

  lemma AckHigh()
    ensures DartStreams.Timely(S4()) && Step(X.Small(), S4(), Char(ACK)) == S5()
  {
    hide FrameOf, L4;
    assert [HIGH][1..] == [];
  }

  lemma AckLow()
    ensures DartStreams.Timely(S6()) && Step(X.Small(), S6(), Char(ACK)) == S7()
  {
    hide FrameOf, L6;
    assert [LOW][1..] == [];
  }

  lemma AckLate()
    ensures DartStreams.Timely(S7()) && Step(X.Small(), S7(), Char(ACK)) == S8()
  {
    hide FrameOf, L7;
    assert [LATE][1..] == [];
  }

  function Inputs(): seq<Input> {
    [DartRuns.Send(1, FIRST.data, true)] + ([DartRuns.Send(2, LOW.data, true)] + ([DartRuns.Send(0, HIGH.data, true)]
      + ([Char(ACK)] + ([Char(ACK)] + ([DartRuns.Send(1, LATE.data, true)] + ([Char(ACK)] + ([Char(ACK)] + [])))))))
  }

  lemma LinkRun()
    ensures Fresh(DartProtocol.Init(true, true, 0))
    ensures Run(X.Small(), DartProtocol.Init(true, true, 0), Inputs()) == S8()
  {
    var (u, s) := (X.Small(), DartProtocol.Init(true, true, 0));
    InitSound(true, true, 0);
    SendFirst();
    SendMore();
    AckFirst();
    AckHigh();
    AckLow();
    AckLate();
    hide Sound, Step, Run, S1, S2, S3, S4, S5, S6, S7, S8, DartProtocol.Init;
    var i8 := [Char(ACK)] + [];
    var i7 := [Char(ACK)] + i8;
    var i6 := [DartRuns.Send(1, LATE.data, true)] + i7;
    var i5 := [Char(ACK)] + i6;
    var i4 := [Char(ACK)] + i5;
    var i3 := [DartRuns.Send(0, HIGH.data, true)] + i4;
    var i2 := [DartRuns.Send(2, LOW.data, true)] + i3;
    X.OneStep(u, s, DartRuns.Send(1, FIRST.data, true), i2);
    X.OneStep(u, S1(), DartRuns.Send(2, LOW.data, true), i3);
    X.OneStep(u, S2(), DartRuns.Send(0, HIGH.data, true), i4);
    X.OneStep(u, S3(), Char(ACK), i5);
    X.OneStep(u, S4(), Char(ACK), i6);
    X.OneStep(u, S5(), DartRuns.Send(1, LATE.data, true), i7);
    X.OneStep(u, S6(), Char(ACK), i8);
    X.OneStep(u, S7(), Char(ACK), []);
    X.NoMore(S8());
  }

  // ---------------------------------------------------------------- its pool

  const A := Chunk(0, 36, true)
  const B := Chunk(40, 32, true)
  const C1 := Chunk(76, 32, true)
  const STRETCHED := Chunk(76, 48, true)
  const D := Chunk(0, 32, true)

  function P1(): Pool { Pool(C.World(Ring(SIZE, [A], []), {0}), map[0 := 0]) }
  function P2(): Pool { Pool(C.World(Ring(SIZE, [A, B], []), {0, 40}), map[0 := 0, 1 := 40]) }
  function P3(): Pool { Pool(C.World(Ring(SIZE, [A, B, C1], []), {0, 40, 76}), map[0 := 0, 1 := 40, 2 := 76]) }
  function P4(): Pool { Pool(C.World(Ring(SIZE, [B, C1], []), {40, 76}), map[1 := 40, 2 := 76]) }
  function P5(): Pool { Pool(C.World(Ring(SIZE, [B, C1.(bound := false)], []), {40}), map[1 := 40]) }
  function P6(): Pool { Pool(C.World(Ring(SIZE, [B, STRETCHED], [D]), {40, 0}), map[1 := 40, 3 := 0]) }
  function P7(): Pool { Pool(C.World(Ring(SIZE, [STRETCHED], [D]), {0}), map[3 := 0]) }
  function P8(): Pool { Pool(C.World(Ring(SIZE, [STRETCHED], [D.(bound := false)]), {}), map[]) }

  lemma Mallocs()
    ensures Served(Pool(C.Start(SIZE), map[]), Queued(FIRST, 1)) == P1()
    ensures Malloc(C.Start(SIZE).ring, Request(FIRST)).Some?
  {
    var none: seq<Chunk> := [];
    assert Alloc(0, 36) == A && none + [A] == [A];
    assert Malloc(C.Start(SIZE).ring, 36) == Some(P1().world.ring);
  }

  lemma MallocLow()
    ensures Tiled(P1().world.ring) && Malloc(P1().world.ring, Request(LOW)).Some?
    ensures Served(P1(), Queued(LOW, 2)) == P2()
  {
    assert Alloc(40, 32) == B && [A] + [B] == [A, B];
    assert Malloc(P1().world.ring, 32) == Some(P2().world.ring);
  }

  lemma MallocHigh()
    ensures Tiled(P2().world.ring) && Malloc(P2().world.ring, Request(HIGH)).Some?
    ensures Served(P2(), Queued(HIGH, 0)) == P3()
  {
    assert Alloc(76, 32) == C1 && [A, B] + [C1] == [A, B, C1];
    assert Malloc(P2().world.ring, 32) == Some(P3().world.ring);
  }

  lemma Frees()
    ensures Tiled(P3().world.ring) && Served(P3(), Freed(0)) == P4()
    ensures Tiled(P4().world.ring) && Served(P4(), Freed(2)) == P5()
  {
    C.FreeFirst(P3().world, P4().world, 0);
    assert C.Find(P4().world.ring.Chunks(), 76) == 1;
    assert C.Step(P4().world, C.OpFree(76)) == P5().world;
  }

  lemma MallocWraps()
    ensures Tiled(P5().world.ring) && Malloc(P5().world.ring, Request(LATE)).Some?
    ensures Served(P5(), Queued(LATE, 1)) == P6()
  {
    var r := P5().world.ring;
    assert Wraps(r, 112, 32) && Alloc(0, 32) == D;
    assert Stretch(r) == [B, STRETCHED];
    assert Malloc(r, 32) == Some(P6().world.ring);
  }

  lemma LateFrees()
    ensures Tiled(P6().world.ring) && Served(P6(), Freed(1)) == P7()
    ensures Tiled(P7().world.ring) && Served(P7(), Freed(3)) == P8()
  {
    C.FreeFirst(P6().world, P7().world, 40);
    assert C.Step(P7().world, C.OpFree(0)) == P8().world;
  }

  lemma AttemptedMemory(l: Log, m: Msg)
    ensures Memory(SIZE, X.Attempted(l, m)) == Memory(SIZE, l)
    ensures Obtained(SIZE, X.Attempted(l, m)) == Obtained(SIZE, l)
  {
    hide Tiled, C.Step, FrameOf, Malloc;
    var l1 := Then(l, Attempt(m));
    assert Memory(SIZE, l1) == Memory(SIZE, l) && Obtained(SIZE, l1) == Obtained(SIZE, l);
  }

  lemma StartedMemory(l: Log, id: nat)
    ensures Memory(SIZE, Then(l, Started(id, true, true))) == Memory(SIZE, l)
    ensures Obtained(SIZE, Then(l, Started(id, true, true))) == Obtained(SIZE, l)
  {
    hide Tiled, C.Step, Malloc;
  }

  lemma EndedMemory(l: Log, m: Msg, prio: nat)
    ensures Memory(SIZE, Ended(l, m, prio)) == Served(Memory(SIZE, l), Freed(m.id))
    ensures Obtained(SIZE, Ended(l, m, prio)) == Obtained(SIZE, l)
  {
    hide Tiled, C.Step, Malloc;
    var l1 := Then(l, TransferDone(m, |m.data|));
    assert Memory(SIZE, l1) == Memory(SIZE, l) && Obtained(SIZE, l1) == Obtained(SIZE, l);
    var l2 := Then(l1, Dequeued(m, prio));
    assert Memory(SIZE, l2) == Memory(SIZE, l1) && Obtained(SIZE, l2) == Obtained(SIZE, l1);
  }

  lemma SentMemory(l: Log, p: Pool, p': Pool, m: Msg, prio: nat)
    requires Obtained(SIZE, l) && Memory(SIZE, l) == p
    requires Tiled(p.world.ring) && Malloc(p.world.ring, Request(m)).Some? && Served(p, Queued(m, prio)) == p'
    ensures Memory(SIZE, Then(l, Queued(m, prio))) == p' && Obtained(SIZE, Then(l, Queued(m, prio)))
  {
    hide Tiled, Malloc, Request;
  }

  lemma EarlyMemory()
    ensures Memory(SIZE, L3()) == P3() && Obtained(SIZE, L3())
  {
    Mallocs();
    MallocLow();
    MallocHigh();
    var l := Then(Empty, Queued(FIRST, 1));
    SentMemory(Empty, Pool(C.Start(SIZE), map[]), P1(), FIRST, 1);
    hide P1, P2, P3, Tiled, Malloc, X.Attempted, Served, Obtained, Memory;
    StartedMemory(l, 0);
    AttemptedMemory(Then(l, Started(0, true, true)), FIRST);
    SentMemory(L1(), P1(), P2(), LOW, 2);
    SentMemory(L2(), P2(), P3(), HIGH, 0);
  }

  lemma MiddleMemory()
    ensures Memory(SIZE, L5()) == P5() && Obtained(SIZE, L5())
  {
    EarlyMemory();
    Frees();
    hide P3, P4, P5, Tiled, X.Attempted, Ended, Served, Obtained, Memory, L3;
    EndedMemory(L3(), FIRST, 1);
    StartedMemory(Ended(L3(), FIRST, 1), 2);
    AttemptedMemory(Then(Ended(L3(), FIRST, 1), Started(2, true, true)), HIGH);
    EndedMemory(L4(), HIGH, 0);
    StartedMemory(Ended(L4(), HIGH, 0), 1);
    AttemptedMemory(Then(Ended(L4(), HIGH, 0), Started(1, true, true)), LOW);
  }

  lemma LateMemory()
    ensures Memory(SIZE, L8()) == P8() && Obtained(SIZE, L8())
  {
    MiddleMemory();
    MallocWraps();
    LateFrees();
    SentMemory(L5(), P5(), P6(), LATE, 1);
    LastEvent(Ended(L7(), LATE, 1));
    hide P5, P6, P7, P8, Tiled, Malloc, X.Attempted, Ended, Served, Obtained, Memory, L5;
    EndedMemory(L6(), LOW, 2);
    StartedMemory(Ended(L6(), LOW, 2), 3);
    AttemptedMemory(Then(Ended(L6(), LOW, 2), Started(3, true, true)), LATE);
    EndedMemory(L7(), LATE, 1);
  }

  lemma LastEvent(l: Log)
    ensures Memory(SIZE, Then(l, TransferComplete(0, 4))) == Memory(SIZE, l)
    ensures Obtained(SIZE, Then(l, TransferComplete(0, 4))) == Obtained(SIZE, l)
  {
  }

  /** All four messages are done, completion is reported, nothing is held, and a chunk is still bound. */
  lemma PoolNotRecovered()
    ensures Fresh(DartProtocol.Init(true, true, 0))
    ensures var s' := Run(X.Small(), DartProtocol.Init(true, true, 0), Inputs());
            var ring := Memory(SIZE, s'.log).world.ring;
            && Obtained(SIZE, s'.log) && Shaped(s') && Outstanding(s') == 0
            && s'.log.Then? && s'.log.event == TransferComplete(0, 4)
            && Memory(SIZE, s'.log).world.held == {} && C.Bound(ring.Chunks()) == {76}
  {
    LinkRun();
    LateMemory();
    StillBound();
    hide Run, Memory, Obtained, DartProtocol.Init, Inputs, Ended, L7, P8, C.Bound, Tiled;
  }

  lemma StillBound()
    ensures P8().world.held == {} && C.Bound(P8().world.ring.Chunks()) == {76}
  {
    var cs := P8().world.ring.Chunks();
    assert cs == [STRETCHED, D.(bound := false)];
    assert C.Bound(cs) == {76} by {
      assert cs[0].bound && cs[0].idx == 76;
    }
  }
}
