/**
 The message side of source/core/scheduler.c on values: the allocator ring, the queue of posted
 messages and the message being delivered. Threads send through process_send_msg only, which
 allocates and posts in one go. Any number of sends may happen while a message is delivered.
 */
module SchedulerRuns {
  import opened Wrappers
  import opened CbaRing
  import opened MessageList

  /** sizeof(struct msg_ptr) - sizeof(struct msg) and offsetof(struct msg_ptr, msg) on a 64-bit target. */
  const MSG_OVERHEAD := 31
  const MSG_OFFSET := 24

  /** A posted message and the header index of the chunk it lives in. */
  datatype Entry = Entry(idx: nat, mail: Mail)

  /** `posted` and `delivered` record the history. */
  datatype Sched = Sched(ring: Ring, current: Option<Entry>, queue: seq<Entry>, posted: seq<Mail>,
                         delivered: seq<Mail>) {
    /** The message being delivered, then the queued ones. */
    function Flight(): seq<Entry> {
      (if current.Some? then [current.value] else []) + queue
    }
  }

  /** Send: process_send_msg. Begin and End: the pop and the free of scheduler_utilize_message. */
  datatype Action = Send(mail: Mail) | Begin | End

  /** The request msg_ptr_malloc makes, kept in 16 bits. */
  function MallocSize(mail: Mail): nat {
    (MSG_OVERHEAD + |mail.bytes|) % UINT16
  }

  /** The chunk msg_ptr_malloc asks for holds the message exactly if the request does not wrap round 16 bits, when
      computed or when rounded. */
  lemma ChunkHoldsMessageIff(mail: Mail)
    ensures MSG_OVERHEAD + |mail.bytes| <= ChunkLen(MallocSize(mail)) <==> MSG_OVERHEAD + |mail.bytes| <= 65532
  {
    ChunkLenHolds(MallocSize(mail));
  }

  function Mails(es: seq<Entry>): seq<Mail> {
    seq(|es|, i requires 0 <= i < |es| => es[i].mail)
  }

  function Start(size: nat): Sched {
    Sched(Init(size), None, [], [], [])
  }

  /** Messages are delivered one at a time. */
  predicate Legal(s: Sched, a: Action) {
    match a
    case Send(_) => true
    case Begin => s.current.None?
    case End => s.current.Some?
  }

  function Step(s: Sched, a: Action): (s': Sched)
    requires Tiled(s.ring)
    ensures Tiled(s'.ring) && s'.ring.size == s.ring.size
  {
    match a
    case Send(mail) =>
      MallocTiled(s.ring, MallocSize(mail));
      var m := Malloc(s.ring, MallocSize(mail));
      if m.None? then s
      else s.(ring := m.value, queue := s.queue + [Entry(m.value.Head(), mail)], posted := s.posted + [mail])
    case Begin =>
      if s.queue == [] then s
      else s.(current := Some(s.queue[0]), queue := s.queue[1..], delivered := s.delivered + [s.queue[0].mail])
    case End =>
      if s.current.None? || s.ring.Chunks() == [] then s
      else
        FreeEffect(s.ring, 0);
        s.(current := None, ring := Free(s.ring, 0))
  }

  function Sends(mails: seq<Mail>): seq<Action> {
    seq(|mails|, i requires 0 <= i < |mails| => Send(mails[i]))
  }

  /** scheduler_utilize_message while the receiver sends `mails`. */
  function Utilize(s: Sched, mails: seq<Mail>): Sched
    requires Tiled(s.ring)
  {
    if s.queue == [] then s else Step(Run(Step(s, Begin), Sends(mails)), End)
  }

  function Run(s: Sched, actions: seq<Action>): (s': Sched)
    requires Tiled(s.ring)
    ensures Tiled(s'.ring) && s'.ring.size == s.ring.size
    decreases |actions|
  {
    if actions == [] then s else Run(Step(s, actions[0]), actions[1..])
  }

  predicate LegalRun(s: Sched, actions: seq<Action>)
    requires Tiled(s.ring)
    decreases |actions|
  {
    actions == [] || (Legal(s, actions[0]) && LegalRun(Step(s, actions[0]), actions[1..]))
  }

  /** Chunk order is message order, every chunk is bound, and nothing posted is lost or duplicated. */
  ghost predicate InStep(s: Sched) {
    && Tiled(s.ring)
    && |s.ring.Chunks()| == |s.Flight()|
    && (forall i :: 0 <= i < |s.Flight()| ==> s.ring.Chunks()[i].idx == s.Flight()[i].idx && s.ring.Chunks()[i].bound)
    && s.posted == s.delivered + Mails(s.queue)
  }

  lemma MailsAppend(es: seq<Entry>, e: Entry)
    ensures Mails(es + [e]) == Mails(es) + [e.mail]
  {
  }

  lemma SendInStep(s: Sched, mail: Mail)
    requires InStep(s)
    ensures Tiled(s.ring)
    ensures InStep(Step(s, Send(mail)))
    ensures var m := Malloc(s.ring, MallocSize(mail));
            m.Some? ==> Step(s, Send(mail)).Flight() == s.Flight() + [Entry(m.value.Head(), mail)]
  {
    hide Tiled, Malloc;
    var m := Malloc(s.ring, MallocSize(mail));
    if m.Some? {
      var s' := Step(s, Send(mail));
      var e := Entry(m.value.Head(), mail);
      MallocEffect(s.ring, MallocSize(mail));
      MailsAppend(s.queue, e);
      assert s'.Flight() == s.Flight() + [e];
      AllBoundAfterMalloc(s.ring, MallocSize(mail));
    }
  }

  /** With every chunk bound, malloc keeps every chunk bound. */
  lemma AllBoundAfterMalloc(r: Ring, len: nat)
    requires Tiled(r) && len < UINT16 && Malloc(r, len).Some?
    requires forall i :: 0 <= i < |r.Chunks()| ==> r.Chunks()[i].bound
    ensures forall i :: 0 <= i < |Malloc(r, len).value.Chunks()| ==> Malloc(r, len).value.Chunks()[i].bound
  {
    MallocEffect(r, len);
    if Wraps(r, r.Free(), len) {
      ChunkInside(r, |r.Chunks()| - 1);
      assert Malloc(r, len).value.Chunks()[|r.Chunks()| - 1] == Last(Stretch(r));
    } else {
      assert Malloc(r, len).value.Chunks() == r.Chunks() + [Alloc(r.Free(), len)];
    }
  }

  lemma BeginInStep(s: Sched)
    requires InStep(s) && s.current.None?
    ensures Tiled(s.ring)
    ensures InStep(Step(s, Begin)) && Step(s, Begin).Flight() == s.Flight()
  {
    if s.queue != [] {
      assert Mails(s.queue) == [s.queue[0].mail] + Mails(s.queue[1..]);
    }
  }

  /** The delivered message is in the oldest chunk, the next chunk is bound, so exactly one chunk goes. */
  lemma EndInStep(s: Sched)
    requires InStep(s) && s.current.Some?
    ensures Tiled(s.ring)
    ensures InStep(Step(s, End)) && Step(s, End).Flight() == s.Flight()[1..]
    ensures s.ring.Chunks() != [] && Step(s, End).ring.Chunks() == s.ring.Chunks()[1..]
    ensures Step(s, End) == s.(current := None, ring := Free(s.ring, 0))
    ensures s.ring.Chunks()[0].idx == s.current.value.idx
  {
    hide Tiled, Free;
    FreeEffect(s.ring, 0);
    var cs := s.ring.Chunks()[0 := s.ring.Chunks()[0].(bound := false)];
    assert cs[1..] == s.ring.Chunks()[1..];
    assert Unbound(cs) == 1 by {
      if 1 < |cs| {
        assert s.Flight()[1] == s.queue[0];
      }
    }
    var s' := Step(s, End);
    assert s'.Flight() == s.queue;
    forall i | 0 <= i < |s.queue| ensures s'.ring.Chunks()[i].idx == s.queue[i].idx && s'.ring.Chunks()[i].bound {
      assert s.Flight()[i + 1] == s.queue[i];
    }
  }

  lemma StepInStep(s: Sched, a: Action)
    requires InStep(s) && Legal(s, a)
    ensures InStep(Step(s, a))
  {
    match a
    case Send(mail) => SendInStep(s, mail);
    case Begin => BeginInStep(s);
    case End => EndInStep(s);
  }

  /** Over every run the ring's chunk order is the message order and the delivered messages are the oldest
      posted ones, each once, in posting order. */
  lemma {:induction false} RunInStep(s: Sched, actions: seq<Action>)
    requires InStep(s) && LegalRun(s, actions)
    ensures InStep(Run(s, actions))
    decreases |actions|
  {
    if actions != [] {
      StepInStep(s, actions[0]);
      RunInStep(Step(s, actions[0]), actions[1..]);
    }
  }

  lemma {:induction false} RunAppend(s: Sched, actions: seq<Action>, a: Action)
    requires Tiled(s.ring)
    ensures Run(s, actions + [a]) == Step(Run(s, actions), a)
    decreases |actions|
  {
    if actions == [] {
      assert Run(s, [a]) == Run(Step(s, a), []);
    } else {
      RunAppend(Step(s, actions[0]), actions[1..], a);
      assert (actions + [a])[1..] == actions[1..] + [a];
    }
  }

  /** The delivery order and, once the queue is drained, the return of the allocator to its initial state. */
  lemma DrainedIsEmpty(size: nat, actions: seq<Action>)
    requires LegalRun(Start(size), actions)
    ensures var s := Run(Start(size), actions);
            && s.delivered <= s.posted
            && |s.posted| == |s.delivered| + |s.queue|
            && (s.queue == [] && s.current.None? <==> s.ring == Init(size))
            && (s.queue == [] ==> s.delivered == s.posted)
  {
    hide Step, Run, LegalRun;
    RunInStep(Start(size), actions);
    var s := Run(Start(size), actions);
    if s.queue == [] && s.current.None? {
      assert s.ring.Chunks() == [];
      assert s.ring == Init(size);
    }
  }

  /** A send fails only when the buffer has no gap for it, whatever was sent and delivered before. */
  lemma SendFailsOnlyWhenFull(s: Sched, mail: Mail)
    requires InStep(s)
    ensures Step(s, Send(mail)).posted == s.posted <==> !exists p: nat :: Gap(s.ring, p, MallocSize(mail))
  {
    MallocSucceedsIffGap(s.ring, MallocSize(mail));
  }
}
