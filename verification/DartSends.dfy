/**
 What becomes of a send: the list it goes to, the order in which what waits is started, and that what the other side
 receives are the very data of sends.
 */
module DartSends {
  import opened Wrappers
  import opened DartFrame
  import opened Timers
  import opened DartProtocol
  import opened DartRuns
  import opened DartStreams
  import opened DartPair
  import opened DartLogs
  import opened DartReceipts

  /** The list for a message: the one asked for (0 high, 1 normal, 2 low); without a priority, which is 4, the high one
      for a response, the normal one for a report and the low one for a request. */
  function ListFor(prio: nat, data: seq<Byte>): Option<nat> {
    if prio < 3 then Some(prio)
    else if prio != 4 then None
    else if data == [] || data[0] < 0x40 then Some(1)
    else if data[0] < 0x80 then Some(2)
    else if data[0] < 0xC0 then Some(0)
    else None
  }

  /** No message is numbered, and the closing timer goes on or is stopped. */
  predicate Undisturbed(s: Link, s': Link) {
    s'.nextId == s.nextId && (s'.closingTimer == s.closingTimer || s'.closingTimer == STOPPED)
  }

  lemma TriggerKeepsQueue(u: Setup, s: Link)
    requires Supported(u.config) && Shaped(s)
    ensures TriggerTransfer(u, s).0.lists == s.lists && TriggerTransfer(u, s).0.pending == s.pending
    ensures Undisturbed(s, TriggerTransfer(u, s).0) && Undisturbed(s, TriggerNext(u, s))
    ensures TriggerTransfer(u, s).1 == Success ==> TriggerTransfer(u, s).0.closingTimer == STOPPED
  {
    hide FrameOf;
  }

  /** A send appends the message to its list and to nothing else; without a list, or without memory, it changes
      nothing. */
  lemma SendQueues(u: Setup, s: Link, prio: nat, data: seq<Byte>, memory: bool)
    requires Supported(u.config) && Shaped(s) && s.running
    ensures var (s', status) := SendMsg(u, s, prio, data, memory);
            var (m, list) := (Msg(s.nextId, data), ListFor(prio, data));
            && (list == None ==> s' == s && status == NotPossible)
            && (list != None && !memory ==> s' == s && status == NoMemory)
            && (list != None && memory ==>
                  && s'.lists == s.lists[list.value := s.lists[list.value] + [m]] && s'.nextId == s.nextId + 1
                  && s'.pending == s.pending && Extends(Then(s.log, Queued(m, list.value)), s'.log))
  {
    hide TriggerTransfer, Extends;
    var m := Msg(s.nextId, data);
    var list := ListFor(prio, data);
    if list.Some? {
      TriggerKeepsQueue(u, Enqueue(s, list.value, m));
      TriggerTransferGrows(u, Enqueue(s, list.value, m));
    }
  }

  /** With nothing in flight, RDY high and WRK high or to be raised, the first message of the highest list goes out at
      once. Only a request waits, and only for the response to another one. */
  lemma StartsAtOnce(u: Setup, s: Link, p: nat)
    requires Supported(u.config) && Shaped(s) && s.transfering.None? && s.rdy && (s.wrk || s.wakeupAttempts < 3)
    requires p < 3 && s.lists[p] != [] && !(s.pending.Some? && Requests(s.lists[p][0]))
    requires forall q :: 0 <= q < p ==> s.lists[q] == [] || (s.pending.Some? && Requests(s.lists[q][0]))
    ensures var (s', status) := TriggerTransfer(u, s);
            && status == Success && s'.transfering == Some(p) && s'.wrk
            && Extends(Then(Then(s.log, Started(s.lists[p][0].id, true, true)), Attempt(s.lists[p][0])), s'.log)
  {
    var s1 := RaiseWrk(s).value;
    assert FindNext(s1) == Some(p) by {
      assert Sendable(s1, p) && forall q :: 0 <= q < p ==> !Sendable(s1, q);
    }
    hide FrameOf, Content, Extends, RaiseWrk;
    var m := s.lists[p][0];
    assert s1.log == s.log by { WrkRaised(s); }
    NoteGrows(s.(log := Then(Then(s.log, Started(m.id, true, true)), Attempt(m))));
    assert s1.wrk && s1.rdy && s1.lists == s.lists by { WrkRaised(s); }
  }

  lemma WrkRaised(s: Link)
    requires RaiseWrk(s).Some?
    ensures var s1 := RaiseWrk(s).value; s1.log == s.log && s1.wrk && s1.rdy == s.rdy && s1.lists == s.lists
  {
  }

  /** What the answer of a trigger says. */
  lemma StatusTells(u: Setup, s: Link)
    requires Supported(u.config) && Shaped(s) && s.transfering.None?
    ensures var (s', status) := TriggerTransfer(u, s);
            && (status == Success <==> s'.transfering.Some?)
            && (status == WaitingForPeer <==> s'.log == Then(s.log, Waiting))
            && (status == NotPossible <==> s'.log == Then(s.log, TransferImpossible))
            && (status == Nothing ==> s'.log == s.log && s'.lists == [[], [], []] && s'.pending.None?)
            && (status == Pending ==> s'.log == s.log && s'.pending.Some?)
  {
    hide FrameOf, Content;
    LogGrowsByOne(s.log);
    if RaiseWrk(s).Some? && s.rdy && FindNext(RaiseWrk(s).value).None? {
      var s1 := RaiseWrk(s).value;
      assert !Sendable(s1, 0) && !Sendable(s1, 1) && !Sendable(s1, 2);
    }
  }

  ghost function Length(l: Log): nat {
    match l
    case Empty => 0
    case Then(b, _) => Length(b) + 1
  }

  lemma LogGrowsByOne(l: Log)
    ensures forall e, f :: Then(Then(l, e), f) != l && Then(l, e) != l
  {
    forall e, f ensures Then(Then(l, e), f) != l && Then(l, e) != l {
      assert Length(Then(Then(l, e), f)) == Length(l) + 2 && Length(Then(l, e)) == Length(l) + 1;
    }
  }

  // ---------------------------------------------------------------- over runs

  /** What was queued, and in which list. */
  ghost function QueuedAs(l: Log): set<(Msg, nat)> {
    match l
    case Empty => {}
    case Then(b, Queued(m, p)) => QueuedAs(b) + {(m, p)}
    case Then(b, _) => QueuedAs(b)
  }

  lemma {:induction false} NoneQueued(l: Log, l': Log)
    requires Extends(l, l')
    ensures QueuedCount(l) <= QueuedCount(l')
    ensures QueuedCount(l) == QueuedCount(l') ==> QueuedAs(l) == QueuedAs(l')
    decreases l'
  {
    if l != l' {
      NoneQueued(l, l'.before);
    }
  }

  lemma AcknowledgeKeeps(u: Setup, s: Link)
    requires Supported(u.config) && Shaped(s)
    ensures Undisturbed(s, AcknowledgeMsg(u, s)) && Undisturbed(s, RetryTransfer(u, s))
  {
    hide TransferMsg, TriggerNext, FinalizeTransfer;
    if s.transfering.Some? {
      var m := s.lists[s.transfering.value][0];
      var s1 := s.(ackTimer := STOPPED);
      var s2 := Note(s.(ackTimer := STOPPED, txAttempts := s.txAttempts + 1), TransferFailure(m));
      FinalizeShaped(s1);
      FinalizeKeeps(Note(s1, TransferDone(m, |m.data|)));
      FinalizeKeeps(s2);
      TriggerKeepsQueue(u, FinalizeTransfer(Note(s1, TransferDone(m, |m.data|))));
      TriggerKeepsQueue(u, FinalizeTransfer(s2));
      TriggerKeepsQueue(u, Dequeue(s1).(responseTimer := Timer(s.now, RESPONSE_TIMER), pending := Some(m)));
      TransferKeeps(u, s.(ackTimer := STOPPED, txAttempts := s.txAttempts + 1), m);
    }
  }

  lemma TransferKeeps(u: Setup, s: Link, m: Msg)
    requires Supported(u.config)
    ensures Undisturbed(s, TransferMsg(u, s, m))
  {
    hide FrameOf;
  }

  lemma FinalizeKeeps(s: Link)
    requires Shaped(s)
    ensures Shaped(FinalizeTransfer(s)) && Undisturbed(s, FinalizeTransfer(s))
  {
  }

  lemma RequestKeeps(u: Setup, s: Link)
    requires Supported(u.config) && Shaped(s)
    ensures s.pending.Some? ==> Undisturbed(s, FinalizeRequest(u, s))
    ensures Undisturbed(s, AbandonRequest(u, s))
  {
    hide TriggerNext;
    if s.pending.Some? {
      var m := s.pending.value;
      TriggerKeepsQueue(u, Note(s, Freed(m.id)).(responseTimer := STOPPED, pending := None));
      TriggerKeepsQueue(u, Note(Note(s, MessageAbandoned(m)), Freed(m.id)).(responseTimer := STOPPED, pending := None));
    }
  }

  lemma CharKeeps(u: Setup, s: Link, ch: Byte)
    requires Supported(u.config) && Shaped(s)
    ensures HandleReceivedChar(u, s, ch).nextId == s.nextId && HandleReceivedChar(u, s, ch).closingTimer == STOPPED
  {
    hide AcknowledgeMsg, RetryTransfer, TriggerTransfer, HandleFrame, GetLen;
    var s1 := Store(s, ch);
    AcknowledgeKeeps(u, s1);
    TriggerKeepsQueue(u, s1);
    if HeaderBytes(u.config) <= |s1.rx| {
      var n := GetLen(u.config, s1.rx);
      if FrameBytes(u.config, n) <= |s1.rx| {
        FrameKeeps(u, s1, n);
      }
    }
  }

  lemma FrameKeeps(u: Setup, s: Link, n: nat)
    requires Supported(u.config) && Shaped(s) && FrameBytes(u.config, n) <= |s.rx|
    ensures Undisturbed(s, HandleFrame(u, s, n))
  {
    hide CheckBytes, FinalizeRequest;
    var s1 := Note(Note(s, Push([ACK])), MessageReceived(GetData(u.config, s.rx, n)));
    if s1.pending.Some? {
      RequestKeeps(u, Note(s1, TransferDone(s1.pending.value, n)));
    }
  }

  lemma TimeKeeps(u: Setup, s0: Link)
    requires Supported(u.config) && Shaped(s0)
    ensures HandleTime(u, s0).0.nextId == s0.nextId
  {
    hide AbandonRequest, RetryTransfer, TriggerTransfer;
    AbandonShaped(u, s0);
    RequestKeeps(u, s0);
    var s := if s0.pending.Some? && Expired(s0.responseTimer, s0.now) then AbandonRequest(u, s0) else s0;
    AcknowledgeKeeps(u, s.(ackTimer := STOPPED));
    TriggerKeepsQueue(u, s);
  }

  lemma StepQueues(u: Setup, s: Link, i: Input)
    requires Supported(u.config) && Genuine(u, s)
    ensures Shaped(s)
    ensures var (old', new') := (QueuedAs(s.log), QueuedAs(Step(u, s, i).log));
            new' == old' || (i.Send? && ListFor(i.prio, i.data).Some? &&
                             new' == old' + {(Msg(s.nextId, i.data), ListFor(i.prio, i.data).value)})
  {
    StepGenuine(u, s, i);
    GenuineCount(u, s);
    GenuineCount(u, Step(u, s, i));
    StepGrows(u, s, i);
    hide Genuine, Extends, HandleReceivedChar, HandleTime, SendMsg;
    NoneQueued(s.log, Step(u, s, i).log);
    match i
    case Char(ch) => CharKeeps(u, s, ch);
    case Tick => TimeKeeps(u, s);
    case Clock(_) =>
    case Send(prio, data, memory) =>
      if s.running {
        SendQueues(u, s, prio, data, memory);
        if memory && ListFor(prio, data).Some? {
          NoneQueued(Then(s.log, Queued(Msg(s.nextId, data), ListFor(prio, data).value)), Step(u, s, i).log);
        }
      } else {
        NotRunning(u, s, prio, data, memory);
      }
    case SetRdy(_) =>
  }

  lemma NotRunning(u: Setup, s: Link, prio: nat, data: seq<Byte>, memory: bool)
    requires Supported(u.config) && Shaped(s) && !s.running
    ensures SendMsg(u, s, prio, data, memory) == (s, NotPossible)
  {
  }

  lemma GenuineCount(u: Setup, s: Link)
    requires Genuine(u, s)
    ensures Shaped(s) && QueuedCount(s.log) == s.nextId
  {
  }

  /** Everything queued comes from one of these sends and went to its list. */
  ghost predicate FromSends(l: Log, inputs: seq<Input>) {
    forall m, p :: (m, p) in QueuedAs(l) ==>
      exists i :: i in inputs && i.Send? && i.data == m.data && ListFor(i.prio, i.data) == Some(p)
  }

  lemma {:induction false} RunQueues(u: Setup, s: Link, before: seq<Input>, inputs: seq<Input>)
    requires Supported(u.config) && Sound(s) && Genuine(u, s) && FromSends(s.log, before)
    ensures FromSends(Run(u, s, inputs).log, before + inputs)
    decreases |inputs|
  {
    hide Sound, Genuine, Step, FromSends;
    if inputs == [] {
      assert before + inputs == before;
    } else {
      SoundParts(s);
      StepSound(u, s, inputs[0]);
      StepGenuine(u, s, inputs[0]);
      OneMoreSend(u, s, before, inputs[0]);
      RunQueues(u, Step(u, s, inputs[0]), before + [inputs[0]], inputs[1..]);
      assert before + [inputs[0]] + inputs[1..] == before + inputs;
    }
  }

  lemma OneMoreSend(u: Setup, s: Link, before: seq<Input>, i: Input)
    requires Supported(u.config) && Genuine(u, s) && Shaped(s) && FromSends(s.log, before)
    ensures FromSends(Step(u, s, i).log, before + [i])
  {
    hide Genuine, Step;
    StepQueues(u, s, i);
    assert i in before + [i] && forall j :: j in before ==> j in before + [i];
  }

  lemma RunFromSends(u: Setup, s: Link, inputs: seq<Input>)
    requires Supported(u.config) && Fresh(s)
    ensures FromSends(Run(u, s, inputs).log, inputs) && WellSent(u, Run(u, s, inputs).log)
  {
    InitGenuine(u, s.wrk, s.rdy, s.now);
    FreshGenuine(u, s, inputs);
    assert QueuedAs(s.log) == {};
    hide Genuine, Run;
    RunQueues(u, s, [], inputs);
    assert [] + inputs == inputs;
  }

  lemma {:induction false} WaitsQueued(l: Log, p: nat, m: Msg)
    requires m in Waits(l, p)
    ensures (m, p) in QueuedAs(l)
    decreases l
  {
    if m in Waits(l.before, p) {
      WaitsQueued(l.before, p, m);
    }
  }

  lemma {:induction false} SentQueued(l: Log, m: Msg)
    requires m in SentMsgs(l)
    ensures exists p :: (m, p) in QueuedAs(l)
    decreases l
  {
    if m in SentMsgs(l.before) {
      SentQueued(l.before, m);
      var p :| (m, p) in QueuedAs(l.before);
      assert (m, p) in QueuedAs(l);
    } else {
      assert (m, l.event.prio) in QueuedAs(l);
    }
  }

  lemma {:induction false} FromSendsBefore(l: Log, l': Log, inputs: seq<Input>)
    requires Extends(l, l') && FromSends(l', inputs)
    ensures FromSends(l, inputs)
    decreases l'
  {
    if l != l' {
      assert QueuedAs(l'.before) <= QueuedAs(l');
      FromSendsBefore(l, l'.before, inputs);
    }
  }

  /** In every run whose sends all leave the priority open: the message started is one that waits, and no response
      waits unless it is one; if it is a request, only requests wait. */
  lemma StartedByType(u: Setup, s: Link, inputs: seq<Input>, l: Log, id: nat, wrk: bool, rdy: bool)
    returns (m: Msg, p: nat)
    requires Supported(u.config) && Fresh(s) && forall i :: i in inputs && i.Send? ==> i.prio == 4
    requires Extends(Then(l, Started(id, wrk, rdy)), Run(u, s, inputs).log)
    ensures m in Waits(l, p) && m.id == id
    ensures !IsResponse(m.Type()) ==> forall q, m' :: m' in Waits(l, q) ==> !IsResponse(m'.Type())
    ensures IsRequest(m.Type()) ==> forall q, m' :: m' in Waits(l, q) ==> IsRequest(m'.Type())
  {
    RunFromSends(u, s, inputs);
    hide Run, FrameOf, Content, FromSends;
    WellSentBefore(u, Then(l, Started(id, wrk, rdy)), Run(u, s, inputs).log);
    ExtendsTwice(l, Then(l, Started(id, wrk, rdy)), Run(u, s, inputs).log);
    FromSendsBefore(l, Run(u, s, inputs).log, inputs);
    p := StartedFrom(u, l, id, wrk, rdy);
    m := Waits(l, p)[0];
    hide WellSent, Extends, Waits, IsRequest, IsResponse;
    forall q, m' | m' in Waits(l, q) ensures ListedByType(m', q) {
      WaitsInList(l, inputs, q, m');
    }
    forall q | 0 <= q < p && q < 2 ensures Waits(l, q) == [] {
      if Waits(l, q) != [] {
        assert Waits(l, q)[0] in Waits(l, q);
        RequestType(Waits(l, q)[0]);
      }
    }
    assert ListedByType(m, p);
  }

  predicate ListedByType(m: Msg, q: nat) {
    q == if IsResponse(m.Type()) then 0 else if IsRequest(m.Type()) then 2 else 1
  }

  lemma RequestType(m: Msg)
    ensures Requests(m) ==> IsRequest(m.Type()) && !IsResponse(m.Type())
    ensures IsRequest(m.Type()) ==> !IsResponse(m.Type())
  {
  }

  lemma StartedFrom(u: Setup, l: Log, id: nat, wrk: bool, rdy: bool) returns (p: nat)
    requires Supported(u.config) && WellSent(u, Then(l, Started(id, wrk, rdy)))
    ensures IsNext(l, id, p)
  {
    hide FrameOf, Content, IsNext;
    p :| IsNext(l, id, p);
  }

  lemma WaitsInList(l: Log, inputs: seq<Input>, q: nat, m: Msg)
    requires FromSends(l, inputs) && (forall i :: i in inputs && i.Send? ==> i.prio == 4) && m in Waits(l, q)
    ensures ListedByType(m, q)
  {
    WaitsQueued(l, q, m);
  }

  /** Whatever one link has received, the data are those of a send to the other, or what the deferred-message callback
      gives for a send of one byte. */
  lemma ReceivedWasSent(uA: Setup, initA: Link, inA: seq<Input>, uB: Setup, initB: Link, inB: seq<Input>,
                        data: seq<Byte>) returns (i: Input)
    requires Joined(uA, initA, inA, uB, initB, inB) && data in Received(Run(uB, initB, inB).log)
    ensures i in inA && i.Send?
    ensures data == if |i.data| == 1 && uA.deferred(i.data[0]).Some? then uA.deferred(i.data[0]).value else i.data
  {
    TwoLinks(uA, initA, inA, uB, initB, inB);
    RunFromSends(uA, initA, inA);
    hide Run, NoTimeout, AllReceivable, Output, Genuine, WellSent;
    var l := Run(uA, initA, inA).log;
    var m :| m in SentMsgs(l) && data == Content(uA, m);
    SentQueued(l, m);
    var p :| (m, p) in QueuedAs(l);
    i :| i in inA && i.Send? && i.data == m.data && ListFor(i.prio, i.data) == Some(p);
  }
}
