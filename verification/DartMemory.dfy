/**
 The message pool of a DART link: the history of the link played against the circular buffer allocator, one
 malloc for each queued message and one free for each freed one.
 */
module DartMemory {
  import opened Wrappers
  import opened DartFrame
  import opened Timers
  import opened DartProtocol
  import opened DartRuns
  import opened DartStreams
  import opened DartPair
  import opened DartLogs
  import opened CbaRing
  import C = CbaRuns
  import SchedulerRuns

  /** The allocator, and the chunk of each message. */
  datatype Pool = Pool(world: C.World, at: map<nat, nat>)

  /** The request msg_ptr_malloc makes for a message. */
  function Request(m: Msg): nat {
    (SchedulerRuns.MSG_OVERHEAD + |m.data|) % UINT16
  }

  /** The call of the allocator behind an event, if there is one. */
  function CallOf(at: map<nat, nat>, e: Event): seq<C.Op> {
    if e.Queued? then [C.OpMalloc(Request(e.msg))]
    else if e.Freed? && e.id in at then [C.OpFree(at[e.id])]
    else []
  }

  function Served(p: Pool, e: Event): (p': Pool)
    requires Tiled(p.world.ring)
    ensures Tiled(p'.world.ring)
  {
    if e.Queued? then
      var w := C.Step(p.world, C.OpMalloc(Request(e.msg)));
      Pool(w, p.at[e.msg.id := w.ring.Head()])
    else if e.Freed? && e.id in p.at then
      Pool(C.Step(p.world, C.OpFree(p.at[e.id])), p.at - {e.id})
    else p
  }

  /** The pool after this history. */
  function Memory(size: nat, l: Log): (p: Pool)
    ensures Tiled(p.world.ring)
  {
    if l.Empty? then Pool(C.Start(size), map[]) else Served(Memory(size, l.before), l.event)
  }

  /** The calls of the allocator in this history. */
  function Calls(size: nat, l: Log): seq<C.Op> {
    if l.Empty? then [] else Calls(size, l.before) + CallOf(Memory(size, l.before).at, l.event)
  }

  /** A message is queued only when its malloc succeeds. */
  ghost predicate Obtained(size: nat, l: Log) {
    l.Then? ==>
      && Obtained(size, l.before)
      && (l.event.Queued? ==> Malloc(Memory(size, l.before).world.ring, Request(l.event.msg)).Some?)
  }

  /** Every message queued and not freed has a chunk of its own, which is bound; nothing else is held. */
  ghost predicate Owned(p: Pool, l: Log) {
    && C.Sound(p.world)
    && p.world.held == p.at.Values
    && (forall x, y :: x in p.at && y in p.at && x != y ==> p.at[x] != p.at[y])
    && (forall id :: id in p.at <==> 0 <= id < QueuedCount(l) && id !in FreedIds(l))
  }

  /** Messages are numbered as they are queued; only one that was queued is freed, and only once. */
  ghost predicate Numbered(l: Log) {
    l.Then? ==>
      && Numbered(l.before)
      && (l.event.Queued? ==> l.event.msg.id == QueuedCount(l.before))
      && (l.event.Freed? ==> 0 <= l.event.id < QueuedCount(l.before) && l.event.id !in FreedIds(l.before))
  }

  lemma {:induction false} FreedWereQueued(l: Log, id: nat)
    requires Numbered(l) && id in FreedIds(l)
    ensures id < QueuedCount(l)
    decreases l
  {
    if id in FreedIds(l.before) {
      FreedWereQueued(l.before, id);
    }
  }

  lemma ValuesWith(at: map<nat, nat>, id: nat, idx: nat)
    requires id !in at
    ensures at[id := idx].Values == at.Values + {idx}
  {
    var at' := at[id := idx];
    assert at'[id] == idx;
    forall v | v in at.Values ensures v in at'.Values {
      var x :| x in at && at[x] == v;
      assert at'[x] == v;
    }
  }

  lemma ValuesWithout(at: map<nat, nat>, id: nat)
    requires id in at && forall x, y :: x in at && y in at && x != y ==> at[x] != at[y]
    ensures (at - {id}).Values == at.Values - {at[id]}
  {
    var at' := at - {id};
    forall v | v in at.Values && v != at[id] ensures v in at'.Values {
      var x :| x in at && at[x] == v;
      assert at'[x] == v;
    }
  }

  lemma QueuedOwned(p: Pool, l: Log, m: Msg, prio: nat)
    requires Owned(p, l) && m.id == QueuedCount(l) && m.id !in FreedIds(l)
    requires Malloc(p.world.ring, Request(m)).Some?
    ensures Owned(Served(p, Queued(m, prio)), Then(l, Queued(m, prio)))
  {
    hide Tiled, Malloc, Request;
    var len := Request(m);
    C.StepSound(p.world, C.OpMalloc(len));
    C.MallocBound(p.world.ring, len);
    var idx := Malloc(p.world.ring, len).value.Head();
    assert idx !in C.Bound(p.world.ring.Chunks());
    assert m.id !in p.at;
    forall x | x in p.at ensures p.at[x] != idx {
      assert p.at[x] in p.at.Values;
    }
    ValuesWith(p.at, m.id, idx);
  }

  /** A free of the link releases a chunk that is held and bound, that of the message. */
  lemma FreedOwned(p: Pool, l: Log, id: nat)
    requires Owned(p, l) && id < QueuedCount(l) && id !in FreedIds(l)
    ensures id in p.at && p.at[id] in p.world.held && p.at[id] in C.Bound(p.world.ring.Chunks())
    ensures Owned(Served(p, Freed(id)), Then(l, Freed(id)))
  {
    hide Tiled, Free;
    assert id in p.at && p.at[id] in p.at.Values;
    var op := C.OpFree(p.at[id]);
    C.StepSound(p.world, op);
    C.HeldIsBound(p.world, p.at[id]);
    ValuesWithout(p.at, id);
  }

  lemma {:induction false} MemoryOwned(size: nat, l: Log)
    requires Numbered(l) && Obtained(size, l)
    ensures Owned(Memory(size, l), l)
    ensures C.LegalRun(C.Start(size), Calls(size, l)) && Memory(size, l).world == C.Run(C.Start(size), Calls(size, l))
  {
    if l.Then? {
      MemoryOwned(size, l.before);
      var p := Memory(size, l.before);
      hide Owned, Tiled;
      if l.event.Queued? {
        if l.event.msg.id in FreedIds(l.before) {
          FreedWereQueued(l.before, l.event.msg.id);
        }
        QueuedOwned(p, l.before, l.event.msg, l.event.prio);
        RunMore(C.Start(size), Calls(size, l.before), C.OpMalloc(Request(l.event.msg)));
      } else if l.event.Freed? {
        FreedOwned(p, l.before, l.event.id);
        RunMore(C.Start(size), Calls(size, l.before), C.OpFree(p.at[l.event.id]));
      } else {
        assert Owned(p, l) by { OtherOwned(p, l.before, l.event); }
        assert Calls(size, l) == Calls(size, l.before);
      }
    }
  }

  lemma OtherOwned(p: Pool, l: Log, e: Event)
    requires Owned(p, l) && !e.Queued? && !e.Freed?
    ensures Owned(p, Then(l, e))
  {
  }

  lemma {:induction false} RunMore(w: C.World, ops: seq<C.Op>, op: C.Op)
    requires Tiled(w.ring) && C.LegalRun(w, ops) && C.Legal(C.Run(w, ops), op)
    ensures C.LegalRun(w, ops + [op]) && C.Run(w, ops + [op]) == C.Step(C.Run(w, ops), op)
    decreases |ops|
  {
    hide Tiled, C.Step, C.Legal;
    if ops == [] {
      assert ops + [op] == [op] && [op][1..] == [];
      assert C.LegalRun(C.Step(w, op), []) && C.Run(C.Step(w, op), []) == C.Step(w, op);
    } else {
      assert (ops + [op])[1..] == ops[1..] + [op];
      RunMore(C.Step(w, ops[0]), ops[1..], op);
    }
  }

  // ---------------------------------------------------------------- all runs of the link

  /** No message is freed twice. */
  lemma {:induction false} FreedOnce(l: Log, n: nat)
    requires multiset(FreedIds(l)) <= AllIds(n) && l.Then? && l.event.Freed?
    ensures l.event.id !in FreedIds(l.before)
  {
    AllIdsCount(n, l.event.id);
    assert FreedIds(l) == FreedIds(l.before) + [l.event.id];
    assert multiset(FreedIds(l))[l.event.id] == multiset(FreedIds(l.before))[l.event.id] + 1 <= 1;
  }

  lemma {:induction false} HistoryNumbered(u: Setup, l: Log, n: nat)
    requires Supported(u.config) && WellSent(u, l) && multiset(FreedIds(l)) <= AllIds(n)
    ensures Numbered(l)
  {
    hide FrameOf, Content;
    if l.Then? {
      if l.event.Freed? {
        FreedOnce(l, n);
        assert FreedIds(l) == FreedIds(l.before) + [l.event.id];
      }
      assert multiset(FreedIds(l.before)) <= multiset(FreedIds(l));
      HistoryNumbered(u, l.before, n);
    }
  }

  lemma RunNumbered(u: Setup, s: Link, inputs: seq<Input>)
    requires Supported(u.config) && Fresh(s)
    ensures Numbered(Run(u, s, inputs).log)
    ensures var s' := Run(u, s, inputs);
            Shaped(s') && s'.nextId == QueuedCount(s'.log) && FreedIds(s'.log) == Finished(s'.log)
            && Live(s') + multiset(Finished(s'.log)) == AllIds(s'.nextId)
  {
    FreshGenuine(u, s, inputs);
    RunSound(u, s, inputs);
    hide Run;
    HistoryNumbered(u, Run(u, s, inputs).log, Run(u, s, inputs).nextId);
  }

  /** In every run of a link whose mallocs are served by its pool: each queued or pending message, and nothing else,
      has a chunk of its own, which is bound. */
  lemma LiveMessagesOwnChunks(u: Setup, s: Link, inputs: seq<Input>, size: nat)
    requires Supported(u.config) && Fresh(s) && Obtained(size, Run(u, s, inputs).log)
    ensures var s' := Run(u, s, inputs);
            var p := Memory(size, s'.log);
            && Shaped(s')
            && Owned(p, s'.log)
            && (forall id: nat :: id in p.at <==> id in Live(s'))
            && p.world.held <= C.Bound(p.world.ring.Chunks())
  {
    RunNumbered(u, s, inputs);
    hide Run;
    var s' := Run(u, s, inputs);
    MemoryOwned(size, s'.log);
    forall id: nat ensures id in Memory(size, s'.log).at <==> id in Live(s') {
      AllIdsCount(s'.nextId, id);
      assert (Live(s') + multiset(Finished(s'.log)))[id] == AllIds(s'.nextId)[id];
      assert id in FreedIds(s'.log) <==> id in multiset(Finished(s'.log));
    }
  }

  lemma {:induction false} PointInHistory(size: nat, l: Log, l': Log)
    requires Extends(l, l') && Numbered(l') && Obtained(size, l')
    ensures Numbered(l) && Obtained(size, l)
    decreases l'
  {
    if l' != l {
      PointInHistory(size, l, l'.before);
    }
  }

  /** Whenever the link frees a message, its chunk is held and bound at that moment: there is no double free and no
      free of another message's chunk. */
  lemma FreesAreOwned(u: Setup, s: Link, inputs: seq<Input>, size: nat, l: Log, id: nat)
    requires Supported(u.config) && Fresh(s) && Obtained(size, Run(u, s, inputs).log)
    requires Extends(Then(l, Freed(id)), Run(u, s, inputs).log)
    ensures var p := Memory(size, l);
            id in p.at && p.at[id] in p.world.held && p.at[id] in C.Bound(p.world.ring.Chunks())
  {
    RunNumbered(u, s, inputs);
    hide Run, Extends, Owned;
    PointInHistory(size, Then(l, Freed(id)), Run(u, s, inputs).log);
    MemoryOwned(size, l);
    FreedOwned(Memory(size, l), l, id);
  }

  /** When the link has finished everything, its pool is empty again if and only if no malloc wrapped over the chunk
      of a message already freed. */
  lemma PoolRecoveredIff(u: Setup, s: Link, inputs: seq<Input>, size: nat)
    requires Supported(u.config) && Fresh(s) && Obtained(size, Run(u, s, inputs).log)
    requires Shaped(Run(u, s, inputs)) && Outstanding(Run(u, s, inputs)) == 0
    ensures var l := Run(u, s, inputs).log;
            && C.LegalRun(C.Start(size), Calls(size, l))
            && (Memory(size, l).world.ring.Chunks() == [] <==> C.NeverRebinds(C.Start(size), Calls(size, l)))
  {
    RunNumbered(u, s, inputs);
    LiveMessagesOwnChunks(u, s, inputs, size);
    hide Run;
    var s' := Run(u, s, inputs);
    MemoryOwned(size, s'.log);
    assert Live(s') == multiset{} by { NothingLive(s'); }
    var p := Memory(size, s'.log);
    forall id | id in p.at ensures id in Live(s') {
    }
    assert p.at.Keys == {};
    C.DrainedIff(size, Calls(size, s'.log));
  }
}
