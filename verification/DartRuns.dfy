/**
 What every run of the DART link keeps: the watchdogs, the single pending request, the conservation and
 order of messages, the bounded retries and the honesty of the completion reports.
 */
module DartRuns {
  import opened Wrappers
  import opened DartFrame
  import opened Timers
  import opened DartProtocol

  /** What the environment can do to the link. */
  datatype Input =
    | Char(ch: Byte)                                // a byte arrives
    | Tick                                          // dart_handle_time is called
    | Clock(ms: nat)                                // the clock advances
    | Send(prio: nat, data: seq<Byte>, memory: bool)
    | SetRdy(level: bool)

  function Step(u: Setup, s: Link, i: Input): Link
    requires Supported(u.config) && Shaped(s)
  {
    match i
    case Char(ch) => HandleReceivedChar(u, s, ch)
    case Tick => HandleTime(u, s).0
    case Clock(ms) => s.(now := (s.now + ms) % UINT32)
    case Send(prio, data, memory) => SendMsg(u, s, prio, data, memory).0
    case SetRdy(level) => s.(rdy := level)
  }

  // ---------------------------------------------------------------- watchdogs

  /** The message in flight. */
  function InFlight(s: Link): Msg
    requires Shaped(s) && s.transfering.Some?
  {
    s.lists[s.transfering.value][0]
  }

  /** A transfer runs iff its acknowledge timer does, a request is pending iff its response timer runs, and no
      second request is in flight then. */
  predicate Watched(s: Link)
    requires Shaped(s)
  {
    && (s.transfering.Some? <==> Running(s.ackTimer))
    && (s.pending.Some? <==> Running(s.responseTimer))
    && (s.pending.Some? ==> IsRequest(s.pending.value.Type()))
    && (s.transfering.Some? && s.pending.Some? ==> !IsRequest(InFlight(s).Type()))
  }

  // ---------------------------------------------------------------- conservation

  function Ids(l: seq<Msg>): seq<nat> {
    seq(|l|, i requires 0 <= i < |l| => l[i].id)
  }

  /** The sends whose message is still queued or pending. */
  ghost function Live(s: Link): multiset<nat>
    requires Shaped(s)
  {
    multiset(Ids(s.lists[0])) + multiset(Ids(s.lists[1])) + multiset(Ids(s.lists[2]))
    + if s.pending.Some? then multiset{s.pending.value.id} else multiset{}
  }

  /** The sends reported done, failed or abandoned, in that order. */
  ghost function Finished(l: Log): seq<nat> {
    match l
    case Empty => []
    case Then(b, TransferDone(m, _)) => Finished(b) + [m.id]
    case Then(b, TransferFailure(m)) => Finished(b) + [m.id]
    case Then(b, MessageAbandoned(m)) => Finished(b) + [m.id]
    case Then(b, _) => Finished(b)
  }

  /** The sends whose memory was freed, in that order. */
  ghost function FreedIds(l: Log): seq<nat> {
    match l
    case Empty => []
    case Then(b, Freed(id)) => FreedIds(b) + [id]
    case Then(b, _) => FreedIds(b)
  }

  ghost function AllIds(n: nat): multiset<nat> {
    if n == 0 then multiset{} else AllIds(n - 1) + multiset{n - 1}
  }

  /** Every queued message is live or finished, exactly once; the finished ones have been freed, in that order. */
  ghost predicate Conserved(s: Link)
    requires Shaped(s)
  {
    && Live(s) + multiset(Finished(s.log)) == AllIds(s.nextId)
    && FreedIds(s.log) == Finished(s.log)
  }

  // ---------------------------------------------------------------- order

  ghost function QueuedIds(l: Log, prio: nat): seq<nat> {
    match l
    case Empty => []
    case Then(b, Queued(m, p)) => if p == prio then QueuedIds(b, prio) + [m.id] else QueuedIds(b, prio)
    case Then(b, _) => QueuedIds(b, prio)
  }

  ghost function DequeuedIds(l: Log, prio: nat): seq<nat> {
    match l
    case Empty => []
    case Then(b, Dequeued(m, p)) => if p == prio then DequeuedIds(b, prio) + [m.id] else DequeuedIds(b, prio)
    case Then(b, _) => DequeuedIds(b, prio)
  }

  /** The messages of one priority leave the queue in the order they were sent. */
  ghost predicate Ordered(s: Link)
    requires Shaped(s)
  {
    forall p :: 0 <= p < PRIO_LENGTH ==> QueuedIds(s.log, p) == DequeuedIds(s.log, p) + Ids(s.lists[p])
  }

  // ---------------------------------------------------------------- retries and reports

  /** dart_transfer_msg calls since the last transfer was triggered. */
  ghost function Attempts(l: Log): nat {
    match l
    case Empty => 0
    case Then(b, Started(_, _, _)) => 0
    case Then(b, Attempt(_)) => Attempts(b) + 1
    case Then(b, _) => Attempts(b)
  }

  ghost predicate AttemptsBounded(l: Log) {
    Attempts(l) <= 3 && (l.Then? ==> AttemptsBounded(l.before))
  }

  /** Every completion was reported with nothing queued, in flight or pending, all messages queued so far being
      finished; every idle report also without a partial frame and with both pins low; every failure after exactly
      three attempts. A transfer was started only with both pins high. */
  ghost predicate Honest(l: Log) {
    match l
    case Empty => true
    case Then(b, TransferComplete(n, queued)) => n == 0 && multiset(Finished(b)) == AllIds(queued) && Honest(b)
    case Then(b, TransferFailure(_)) => Attempts(b) == 3 && Honest(b)
    case Then(b, Started(_, wrk, rdy)) => wrk && rdy && Honest(b)
    case Then(b, Idle(n, rxBytes, wrk, rdy)) => n == 0 && rxBytes == 0 && !wrk && !rdy && Honest(b)
    case Then(b, _) => Honest(b)
  }

  ghost predicate Reported(s: Link)
    requires Shaped(s)
  {
    && AttemptsBounded(s.log) && Honest(s.log)
    && (s.transfering.Some? ==> Attempts(s.log) == s.txAttempts + 1)
  }

  // ---------------------------------------------------------------- the receive buffer

  /** The bytes received of the current frame; they are always fewer than the buffer holds. */
  predicate Receiving(c: Config, s: Link) {
    && |s.rx| < c.rxSize
    && (s.rx != [] <==> Running(s.rxTimer))
    && (s.rx != [] ==> s.rx[0] == SYNC && s.rxTimer.interval == BYTE_TIMER)
    && (1 <= c.lenSize <= 2 && HeaderBytes(c) <= |s.rx| ==> |s.rx| < FrameBytes(c, GetLen(c, s.rx)) <= c.rxSize)
  }

  /** Everything the queue side keeps. */
  ghost predicate Sound(s: Link) {
    Shaped(s) && Watched(s) && Conserved(s) && Ordered(s) && Reported(s)
  }

  // ---------------------------------------------------------------- building blocks

  /** Events that none of the properties counts. */
  predicate Silent(e: Event) {
    || e.Push? || e.Waiting? || e.TransferIncomplete? || e.TransferCorrupted? || e.TransferImpossible?
    || e.MessageReceived?
  }

  lemma NoteSilent(s: Link, e: Event)
    requires Sound(s) && Silent(e)
    ensures Sound(Note(s, e))
  {
  }

  /** Fields no property mentions. */
  lemma Untouched(s: Link, s': Link)
    requires Sound(s)
    requires s' == s.(wakeupTimer := s'.wakeupTimer, wakeupAttempts := s'.wakeupAttempts,
                      closingTimer := s'.closingTimer, rx := s'.rx, rxTimer := s'.rxTimer, wrk := s'.wrk, rdy := s'.rdy,
                      now := s'.now)
    ensures Sound(s')
  {
    assert Live(s') == Live(s);
  }

  /** A dart_transfer_msg adds one attempt and changes nothing else that is counted. */
  lemma TransferLog(l: Log, m: Msg, bytes: seq<Byte>)
    ensures var l' := Then(Then(l, Attempt(m)), Push(bytes));
            && Finished(l') == Finished(l) && FreedIds(l') == FreedIds(l)
            && Attempts(l') == Attempts(l) + 1
            && (AttemptsBounded(l) && Attempts(l) < TX_ATTEMPTS ==> AttemptsBounded(l'))
            && (Honest(l) ==> Honest(l'))
            && forall p :: QueuedIds(l', p) == QueuedIds(l, p) && DequeuedIds(l', p) == DequeuedIds(l, p)
  {
    var l1 := Then(l, Attempt(m));
    assert Finished(l1) == Finished(l) && FreedIds(l1) == FreedIds(l) && Attempts(l1) == Attempts(l) + 1;
    assert forall p :: QueuedIds(l1, p) == QueuedIds(l, p) && DequeuedIds(l1, p) == DequeuedIds(l, p);
  }

  lemma StartTransferSound(u: Setup, s: Link, p: nat)
    requires Supported(u.config) && Sound(s) && s.transfering.None? && p < PRIO_LENGTH && Sendable(s, p)
    requires s.wrk && s.rdy
    ensures Sound(StartTransfer(u, s, p))
  {
    var s' := StartTransfer(u, s, p);
    var l := Then(s.log, Started(s.lists[p][0].id, s.wrk, s.rdy));
    TransferLog(l, s.lists[p][0], s'.log.event.bytes);
    assert Live(s') == Live(s);
    assert Finished(l) == Finished(s.log) && FreedIds(l) == FreedIds(s.log) && Attempts(l) == 0;
    assert forall p :: QueuedIds(l, p) == QueuedIds(s.log, p) && DequeuedIds(l, p) == DequeuedIds(s.log, p);
  }

  lemma TriggerTransferSound(u: Setup, s: Link)
    requires Supported(u.config) && Sound(s)
    ensures Sound(TriggerTransfer(u, s).0)
  {
    hide Sound, StartTransfer;
    if s.transfering.None? {
      if RaiseWrk(s).None? {
        Untouched(s, s.(wakeupAttempts := 0));
        NoteSilent(s.(wakeupAttempts := 0), TransferImpossible);
      } else {
        var s1 := RaiseWrk(s).value;
        Untouched(s, s1);
        if !s1.rdy {
          NoteSilent(s1, Waiting);
        } else if FindNext(s1).Some? {
          StartTransferSound(u, s1, FindNext(s1).value);
        }
      }
    }
  }

  /** dart_trigger_transfer answers "nothing to do" only with every list empty and no request pending. */
  lemma NothingMeansEmpty(u: Setup, s: Link)
    requires Supported(u.config) && Shaped(s) && TriggerTransfer(u, s).1 == Nothing
    ensures var s1 := TriggerTransfer(u, s).0;
            Shaped(s1) && s1.transfering.None? && s1.pending.None? && Outstanding(s1) == 0
  {
    var s1 := RaiseWrk(s).value;
    assert forall i :: 0 <= i < PRIO_LENGTH ==> !Sendable(s1, i);
    assert !Sendable(s1, 0) && !Sendable(s1, 1) && !Sendable(s1, 2);
  }

  lemma NothingLive(s: Link)
    requires Shaped(s) && Outstanding(s) == 0
    ensures Live(s) == multiset{}
  {
    assert Ids(s.lists[0]) == [] && Ids(s.lists[1]) == [] && Ids(s.lists[2]) == [];
  }

  lemma CompleteSound(s: Link)
    requires Sound(s) && Outstanding(s) == 0
    ensures Sound(Note(s, TransferComplete(Outstanding(s), s.nextId)))
  {
    var s' := Note(s, TransferComplete(Outstanding(s), s.nextId));
    NothingLive(s);
    NothingLive(s');
    hide Live, AllIds, Outstanding;
    assert multiset(Finished(s.log)) == multiset{} + multiset(Finished(s.log));
  }

  lemma TriggerNextSound(u: Setup, s: Link)
    requires Supported(u.config) && Sound(s)
    ensures Sound(TriggerNext(u, s))
  {
    TriggerTransferSound(u, s);
    var (s1, status) := TriggerTransfer(u, s);
    if status == Nothing {
      NothingMeansEmpty(u, s);
      hide TriggerTransfer;
      CompleteSound(s1);
    }
  }

  /** Taking the message in flight off its list; the acknowledge timer has been stopped. */
  lemma DequeueEffect(s: Link)
    requires Shaped(s) && s.transfering.Some? && Ordered(s)
    ensures var s' := Dequeue(s);
            && Shaped(s') && Ordered(s')
            && Live(s) == Live(s') + multiset{InFlight(s).id}
            && Finished(s'.log) == Finished(s.log) && FreedIds(s'.log) == FreedIds(s.log)
            && (AttemptsBounded(s.log) ==> AttemptsBounded(s'.log)) && (Honest(s.log) ==> Honest(s'.log))
  {
    var p := s.transfering.value;
    var l := s.lists[p];
    assert Ids(l) == [l[0].id] + Ids(l[1..]);
    assert multiset(Ids(l)) == multiset{l[0].id} + multiset(Ids(l[1..]));
  }

  /** The report and the free of a finished message. */
  predicate FinishEvent(e: Event, m: Msg) {
    e == TransferFailure(m) || e == MessageAbandoned(m) || (e.TransferDone? && e.msg == m)
  }

  lemma ReportedLog(l: Log, e: Event, m: Msg)
    requires FinishEvent(e, m)
    ensures var l' := Then(l, e);
            && Finished(l') == Finished(l) + [m.id] && FreedIds(l') == FreedIds(l)
            && Attempts(l') == Attempts(l) && (AttemptsBounded(l) ==> AttemptsBounded(l'))
            && (Honest(l) && (e.TransferFailure? ==> Attempts(l) == TX_ATTEMPTS) ==> Honest(l'))
            && forall q :: QueuedIds(l', q) == QueuedIds(l, q) && DequeuedIds(l', q) == DequeuedIds(l, q)
  {
  }

  lemma FreedLog(l: Log, id: nat)
    ensures var l' := Then(l, Freed(id));
            && Finished(l') == Finished(l) && FreedIds(l') == FreedIds(l) + [id]
            && Attempts(l') == Attempts(l) && (AttemptsBounded(l) ==> AttemptsBounded(l')) && (Honest(l) ==> Honest(l'))
            && forall q :: QueuedIds(l', q) == QueuedIds(l, q) && DequeuedIds(l', q) == DequeuedIds(l, q)
  {
  }

  /** A finished message is reported, taken off its list and freed. */
  lemma FinishSound(u: Setup, s: Link, e: Event, attempts: nat)
    requires Supported(u.config) && Sound(s) && s.transfering.Some? && FinishEvent(e, InFlight(s))
    requires e.TransferFailure? ==> s.txAttempts + 1 == TX_ATTEMPTS
    ensures Sound(FinalizeTransfer(Note(s.(ackTimer := STOPPED, txAttempts := attempts), e)))
  {
    var s1 := Note(s.(ackTimer := STOPPED, txAttempts := attempts), e);
    var m := InFlight(s);
    ReportedLog(s.log, e, m);
    var s2 := Dequeue(s1);
    var s3 := FinalizeTransfer(s1);
    hide Finished, FreedIds, QueuedIds, DequeuedIds, Attempts, AttemptsBounded, Honest, AllIds;
    assert Live(s1) == Live(s) && Live(s3) == Live(s2);
    hide Live;
    assert Ordered(s1);
    DequeueEffect(s1);
    FreedLog(s2.log, m.id);
    assert Conserved(s3) by {
      FinishedSum(Live(s), Live(s2), Finished(s.log), m.id);
    }
  }

  lemma FinishedSum(live: multiset<nat>, live': multiset<nat>, finished: seq<nat>, id: nat)
    requires live == live' + multiset{id}
    ensures live + multiset(finished) == live' + multiset(finished + [id])
  {
  }

  lemma RetryTransferSound(u: Setup, s: Link)
    requires Supported(u.config) && Sound(s)
    ensures Sound(RetryTransfer(u, s))
  {
    hide Sound, TriggerNext, FinalizeTransfer, TransferMsg;
    SoundParts(s);
    if s.transfering.Some? {
      if s.txAttempts + 1 < TX_ATTEMPTS {
        ResendSound(u, s);
      } else {
        var m := InFlight(s);
        FinishSound(u, s, TransferFailure(m), s.txAttempts + 1);
        var s1 := s.(ackTimer := STOPPED, txAttempts := s.txAttempts + 1);
        TriggerNextSound(u, FinalizeTransfer(Note(s1, TransferFailure(m))));
      }
    }
  }

  lemma SoundParts(s: Link)
    requires Sound(s)
    ensures Shaped(s) && (s.transfering.Some? ==> s.txAttempts < TX_ATTEMPTS)
  {
  }

  lemma ResendSound(u: Setup, s: Link)
    requires Supported(u.config) && Sound(s) && s.transfering.Some? && s.txAttempts + 1 < TX_ATTEMPTS
    ensures Sound(TransferMsg(u, s.(ackTimer := STOPPED, txAttempts := s.txAttempts + 1), InFlight(s)))
  {
    var s' := TransferMsg(u, s.(ackTimer := STOPPED, txAttempts := s.txAttempts + 1), InFlight(s));
    TransferLog(s.log, InFlight(s), s'.log.event.bytes);
    assert Live(s') == Live(s);
  }

  /** A request that was acknowledged moves from its list to the pending slot, which is empty. */
  lemma PendSound(s: Link)
    requires Sound(s) && s.transfering.Some? && IsRequest(InFlight(s).Type())
    ensures s.pending.None?
    ensures Sound(Dequeue(s.(ackTimer := STOPPED)).(responseTimer := Timer(s.now, RESPONSE_TIMER),
                                                    pending := Some(InFlight(s))))
  {
    var s1 := s.(ackTimer := STOPPED);
    DequeueEffect(s1);
    var s2 := Dequeue(s1);
    var s3 := s2.(responseTimer := Timer(s.now, RESPONSE_TIMER), pending := Some(InFlight(s)));
    assert Live(s1) == Live(s) && Live(s3) == Live(s2) + multiset{InFlight(s).id};
  }

  lemma AcknowledgeMsgSound(u: Setup, s: Link)
    requires Supported(u.config) && Sound(s)
    ensures Sound(AcknowledgeMsg(u, s))
  {
    hide Sound, TriggerNext, FinalizeTransfer, Dequeue;
    SoundParts(s);
    if s.transfering.Some? {
      var m := InFlight(s);
      var s1 := s.(ackTimer := STOPPED);
      if IsRequest(m.Type()) {
        PendSound(s);
        TriggerNextSound(u, Dequeue(s1).(responseTimer := Timer(s.now, RESPONSE_TIMER), pending := Some(m)));
      } else {
        FinishSound(u, s, TransferDone(m, |m.data|), s.txAttempts);
        TriggerNextSound(u, FinalizeTransfer(Note(s1, TransferDone(m, |m.data|))));
      }
    }
  }

  /** A pending request is reported and freed. */
  lemma UnpendSound(s: Link, e: Event)
    requires Sound(s) && s.pending.Some? && FinishEvent(e, s.pending.value) && !e.TransferFailure?
    ensures Sound(Note(Note(s, e), Freed(s.pending.value.id)).(responseTimer := STOPPED, pending := None))
  {
    var m := s.pending.value;
    var s1 := Note(s, e);
    var s2 := Note(s1, Freed(m.id)).(responseTimer := STOPPED, pending := None);
    assert Live(s) == Live(s2) + multiset{m.id};
    ReportedLog(s.log, e, m);
    FreedLog(s1.log, m.id);
    hide Finished, FreedIds, QueuedIds, DequeuedIds, Attempts, AttemptsBounded, Honest, AllIds, Live;
    assert Conserved(s2) by {
      FinishedSum(Live(s), Live(s2), Finished(s.log), m.id);
    }
  }

  lemma FinalizeRequestSound(u: Setup, s: Link, e: Event)
    requires Supported(u.config) && Sound(s) && s.pending.Some?
    requires FinishEvent(e, s.pending.value) && !e.TransferFailure?
    ensures Shaped(s) && Sound(FinalizeRequest(u, Note(s, e)))
  {
    hide Sound, TriggerNext;
    SoundParts(s);
    UnpendSound(s, e);
    TriggerNextSound(u, Note(Note(s, e), Freed(s.pending.value.id)).(responseTimer := STOPPED, pending := None));
  }

  lemma AbandonRequestSound(u: Setup, s: Link)
    requires Supported(u.config) && Sound(s)
    ensures Sound(AbandonRequest(u, s))
  {
    hide Sound, FinalizeRequest;
    SoundParts(s);
    if s.pending.Some? {
      FinalizeRequestSound(u, s, MessageAbandoned(s.pending.value));
    }
  }

  lemma HandleReceivedMsgSound(u: Setup, s: Link, data: seq<Byte>, t: Byte)
    requires Supported(u.config) && Sound(s)
    ensures Sound(HandleReceivedMsg(u, s, data, t))
  {
    hide Sound, FinalizeRequest;
    SoundParts(s);
    var s1 := Note(s, MessageReceived(data));
    NoteSilent(s, MessageReceived(data));
    if s1.pending.Some? {
      FinalizeRequestSound(u, s1, TransferDone(s1.pending.value, |data|));
    }
  }

  lemma HandleReceivedCharSound(u: Setup, s: Link, ch: Byte)
    requires Supported(u.config) && Sound(s)
    ensures Sound(HandleReceivedChar(u, s, ch))
  {
    hide Sound, AcknowledgeMsg, RetryTransfer, TriggerTransfer, HandleReceivedMsg, CheckBytes, GetLen;
    SoundParts(s);
    NoteSilent(s, TransferIncomplete);
    var s1 := Store(s, ch);
    Untouched(if Running(s.rxTimer) && Expired(s.rxTimer, s.now) then Note(s, TransferIncomplete) else s, s1);
    if |s1.rx| == 1 {
      HandleFirstCharSound(u, s1, ch);
    } else if HeaderBytes(u.config) <= |s1.rx| {
      var n := GetLen(u.config, s1.rx);
      if u.config.rxSize < FrameBytes(u.config, n) {
        NoteSilent(s1, TransferCorrupted);
        var s2 := Note(s1, TransferCorrupted);
        Untouched(s2, DropFrame(s2));
      } else if FrameBytes(u.config, n) <= |s1.rx| {
        HandleFrameSound(u, s1, n);
      }
    }
  }

  lemma HandleFirstCharSound(u: Setup, s: Link, ch: Byte)
    requires Supported(u.config) && Sound(s)
    ensures Shaped(s) && Sound(HandleFirstChar(u, s, ch))
  {
    hide Sound, AcknowledgeMsg, RetryTransfer, TriggerTransfer;
    SoundParts(s);
    AcknowledgeMsgSound(u, s);
    RetryTransferSound(u, s);
    TriggerTransferSound(u, s);
    if ch == SYNC {
      Untouched(s, s.(rxTimer := Timer(s.now, BYTE_TIMER), wrk := true));
    } else {
      var s1 := if !s.wrk then s
                else if ch == ACK then AcknowledgeMsg(u, s)
                else if ch == BAD then RetryTransfer(u, s)
                else if ch == CAN then TriggerTransfer(u, s).0
                else s;
      Untouched(s1, DropFrame(s1));
    }
  }

  lemma HandleFrameSound(u: Setup, s: Link, n: nat)
    requires Supported(u.config) && Sound(s) && FrameBytes(u.config, n) <= |s.rx|
    ensures Shaped(s) && Sound(HandleFrame(u, s, n))
  {
    hide Sound, HandleReceivedMsg, CheckBytes;
    SoundParts(s);
    var c := u.config;
    var data := GetData(c, s.rx, n);
    NoteSilent(s, Push([BAD]));
    NoteSilent(Note(s, Push([BAD])), TransferCorrupted);
    NoteSilent(s, Push([ACK]));
    SoundParts(Note(s, Push([ACK])));
    HandleReceivedMsgSound(u, Note(s, Push([ACK])), data, s.rx[HeaderBytes(c)]);
    var s1 := Note(Note(s, Push([BAD])), TransferCorrupted);
    var s2 := HandleReceivedMsg(u, Note(s, Push([ACK])), data, s.rx[HeaderBytes(c)]);
    Untouched(s1, DropFrame(s1));
    Untouched(s2, DropFrame(s2));
  }

  lemma IdleSound(s: Link)
    requires Sound(s) && Outstanding(s) == 0 && s.rx == [] && !s.wrk && !s.rdy
    ensures Sound(Note(s, Idle(Outstanding(s), |s.rx|, s.wrk, s.rdy)))
  {
    assert Live(Note(s, Idle(Outstanding(s), |s.rx|, s.wrk, s.rdy))) == Live(s);
  }

  lemma HandleQuietSound(s: Link)
    requires Sound(s) && s.pending.None? && Shaped(s) && FindNext(s).None? && s.rx == []
    ensures Sound(HandleQuiet(s).0)
  {
    hide Sound;
    var s' := HandleQuiet(s).0;
    if s'.log == s.log {
      Untouched(s, s');
    } else {
      var s1 := s.(closingTimer := STOPPED);
      Untouched(s, s1);
      assert !Sendable(s, 0) && !Sendable(s, 1) && !Sendable(s, 2);
      IdleSound(s1);
    }
  }

  lemma HandleTimeSound(u: Setup, s0: Link)
    requires Supported(u.config) && Sound(s0)
    ensures Sound(HandleTime(u, s0).0)
  {
    hide Sound, AbandonRequest, RetryTransfer, TriggerTransfer, HandleQuiet;
    SoundParts(s0);
    AbandonRequestSound(u, s0);
    var s := if s0.pending.Some? && Expired(s0.responseTimer, s0.now) then AbandonRequest(u, s0) else s0;
    SoundParts(s);
    if s.transfering.Some? {
      if Expired(s.ackTimer, s.now) {
        if s.rdy {
          AckTimeoutSound(u, s);
        } else {
          PeerGoneSound(s);
        }
      }
    } else if FindNext(s).Some? {
      Untouched(s, s.(wakeupTimer := STOPPED, wrk := false));
      TriggerTransferSound(u, s);
    } else if s.pending.None? && s.rx == [] {
      HandleQuietSound(s);
    }
  }

  /** Stopping the acknowledge timer twice is stopping it once. */
  lemma AckTimeoutSound(u: Setup, s: Link)
    requires Supported(u.config) && Sound(s) && s.transfering.Some?
    ensures Shaped(s) && Sound(RetryTransfer(u, s.(ackTimer := STOPPED)))
  {
    hide Sound, TriggerNext, FinalizeTransfer, TransferMsg;
    SoundParts(s);
    RetryTransferSound(u, s);
    var s1 := s.(ackTimer := STOPPED);
    assert s1.(ackTimer := STOPPED, txAttempts := s1.txAttempts + 1) ==
           s.(ackTimer := STOPPED, txAttempts := s.txAttempts + 1);
  }

  /** When the peer is not ready the message goes back to waiting in its list. */
  lemma PeerGoneSound(s: Link)
    requires Sound(s)
    ensures Sound(s.(ackTimer := STOPPED, transfering := None))
  {
    assert Live(s.(ackTimer := STOPPED, transfering := None)) == Live(s);
  }

  function Enqueue(s: Link, p: nat, m: Msg): Link
    requires Shaped(s) && p < PRIO_LENGTH
  {
    Note(s, Queued(m, p)).(lists := s.lists[p := s.lists[p] + [m]], nextId := s.nextId + 1)
  }

  lemma SendMsgSound(u: Setup, s: Link, prio: nat, data: seq<Byte>, memory: bool)
    requires Supported(u.config) && Sound(s)
    ensures Sound(SendMsg(u, s, prio, data, memory).0)
  {
    hide Sound, TriggerTransfer;
    SoundParts(s);
    var m := Msg(s.nextId, data);
    var p := if prio == PRIO_ANY then GuessPriority(m.Type()) else prio;
    if s.running && p < PRIO_LENGTH && memory {
      EnqueueSound(s, p, m);
      TriggerTransferSound(u, Enqueue(s, p, m));
    }
  }

  lemma QueuedLog(l: Log, m: Msg, p: nat)
    ensures var l' := Then(l, Queued(m, p));
            && Finished(l') == Finished(l) && FreedIds(l') == FreedIds(l) && Attempts(l') == Attempts(l)
            && (AttemptsBounded(l) ==> AttemptsBounded(l')) && (Honest(l) ==> Honest(l'))
            && forall q :: && QueuedIds(l', q) == QueuedIds(l, q) + (if q == p then [m.id] else [])
                           && DequeuedIds(l', q) == DequeuedIds(l, q)
  {
  }

  /** One more element in one of four summands. */
  lemma OneMore(a: multiset<nat>, b: multiset<nat>, c: multiset<nat>, d: multiset<nat>, x: multiset<nat>)
    ensures (a + x) + b + c + d == a + b + c + d + x
    ensures a + (b + x) + c + d == a + b + c + d + x
    ensures a + b + (c + x) + d == a + b + c + d + x
  {
  }

  lemma EnqueueLive(s: Link, p: nat, m: Msg)
    requires Shaped(s) && p < PRIO_LENGTH
    ensures Shaped(Enqueue(s, p, m)) && Live(Enqueue(s, p, m)) == Live(s) + multiset{m.id}
  {
    var s' := Enqueue(s, p, m);
    assert Ids(s.lists[p] + [m]) == Ids(s.lists[p]) + [m.id];
    var pending := if s.pending.Some? then multiset{s.pending.value.id} else multiset{};
    assert multiset(Ids(s'.lists[p])) == multiset(Ids(s.lists[p])) + multiset{m.id};
    OneMore(multiset(Ids(s.lists[0])), multiset(Ids(s.lists[1])), multiset(Ids(s.lists[2])), pending, multiset{m.id});
  }

  lemma EnqueueConserved(live: multiset<nat>, finished: multiset<nat>, all: multiset<nat>, x: multiset<nat>)
    requires live + finished == all
    ensures (live + x) + finished == all + x
  {
  }

  lemma EnqueueOrdered(s: Link, p: nat, m: Msg)
    requires Shaped(s) && p < PRIO_LENGTH && Ordered(s)
    ensures Shaped(Enqueue(s, p, m)) && Ordered(Enqueue(s, p, m))
  {
    QueuedLog(s.log, m, p);
    hide QueuedIds, DequeuedIds;
    var s' := Enqueue(s, p, m);
    assert Ids(s.lists[p] + [m]) == Ids(s.lists[p]) + [m.id];
    forall q | 0 <= q < PRIO_LENGTH ensures QueuedIds(s'.log, q) == DequeuedIds(s'.log, q) + Ids(s'.lists[q]) {
      assert s'.lists[q] == if q == p then s.lists[p] + [m] else s.lists[q];
      assert QueuedIds(s.log, q) == DequeuedIds(s.log, q) + Ids(s.lists[q]);
    }
  }

  lemma EnqueueSound(s: Link, p: nat, m: Msg)
    requires Sound(s) && p < PRIO_LENGTH && m.id == s.nextId
    ensures Sound(Enqueue(s, p, m))
  {
    hide Finished, FreedIds, QueuedIds, DequeuedIds, Attempts, AttemptsBounded, Honest, Live, AllIds;
    var s' := Enqueue(s, p, m);
    assert Conserved(s') by {
      QueuedLog(s.log, m, p);
      EnqueueLive(s, p, m);
      EnqueueConserved(Live(s), multiset(Finished(s.log)), AllIds(s.nextId), multiset{m.id});
      AllIdsNext(s.nextId);
    }
    assert Ordered(s') by {
      EnqueueOrdered(s, p, m);
    }
    assert Reported(s') by {
      QueuedLog(s.log, m, p);
    }
  }

  lemma AllIdsNext(n: nat)
    ensures AllIds(n + 1) == AllIds(n) + multiset{n}
  {
  }

  lemma StepSound(u: Setup, s: Link, i: Input)
    requires Supported(u.config) && Sound(s)
    ensures Sound(Step(u, s, i))
  {
    hide Sound, HandleReceivedChar, HandleTime, SendMsg;
    SoundParts(s);
    match i
    case Char(ch) => HandleReceivedCharSound(u, s, ch);
    case Tick => HandleTimeSound(u, s);
    case Clock(ms) => Untouched(s, s.(now := (s.now + ms) % UINT32));
    case Send(prio, data, memory) => SendMsgSound(u, s, prio, data, memory);
    case SetRdy(level) => Untouched(s, s.(rdy := level));
  }

  // ---------------------------------------------------------------- all runs

  ghost function Run(u: Setup, s: Link, inputs: seq<Input>): Link
    requires Supported(u.config) && Sound(s)
    decreases |inputs|
  {
    if inputs == [] then s
    else
      StepSound(u, s, inputs[0]);
      Run(u, Step(u, s, inputs[0]), inputs[1..])
  }

  lemma {:induction false} RunSound(u: Setup, s: Link, inputs: seq<Input>)
    requires Supported(u.config) && Sound(s)
    ensures Sound(Run(u, s, inputs))
    decreases |inputs|
  {
    hide Sound, Step;
    if inputs != [] {
      SoundParts(s);
      StepSound(u, s, inputs[0]);
      RunSound(u, Step(u, s, inputs[0]), inputs[1..]);
    }
  }

  lemma InitSound(wrk: bool, rdy: bool, now: nat)
    ensures Sound(Init(wrk, rdy, now))
  {
    var s := Init(wrk, rdy, now);
    assert Ids(s.lists[0]) == [] && Ids(s.lists[1]) == [] && Ids(s.lists[2]) == [];
    assert Live(s) == multiset{};
  }

  lemma {:induction false} AllIdsCount(n: nat, id: nat)
    ensures AllIds(n)[id] == if id < n then 1 else 0
  {
    if n != 0 {
      AllIdsCount(n - 1, id);
    }
  }

  /** Each send that queued a message is, after any run, in exactly one place exactly once: still queued or pending,
      or reported done, failed or abandoned. The finished ones were freed once each, in that order. */
  lemma MessagesConserved(u: Setup, wrk: bool, rdy: bool, now: nat, inputs: seq<Input>, id: nat)
    requires Supported(u.config)
    ensures Sound(Init(wrk, rdy, now))
    ensures var s := Run(u, Init(wrk, rdy, now), inputs);
            && Shaped(s) && Live(s)[id] + multiset(Finished(s.log))[id] == (if id < s.nextId then 1 else 0)
            && FreedIds(s.log) == Finished(s.log)
  {
    InitSound(wrk, rdy, now);
    RunSound(u, Init(wrk, rdy, now), inputs);
    hide Run;
    var s := Run(u, Init(wrk, rdy, now), inputs);
    AllIdsCount(s.nextId, id);
    assert (Live(s) + multiset(Finished(s.log)))[id] == AllIds(s.nextId)[id];
  }

  /** In every run the messages of one priority leave the queue in the order they were sent. */
  lemma SendOrderKept(u: Setup, wrk: bool, rdy: bool, now: nat, inputs: seq<Input>, prio: nat)
    requires Supported(u.config) && prio < PRIO_LENGTH
    ensures Sound(Init(wrk, rdy, now))
    ensures var s := Run(u, Init(wrk, rdy, now), inputs);
            Shaped(s) && QueuedIds(s.log, prio) == DequeuedIds(s.log, prio) + Ids(s.lists[prio])
  {
    InitSound(wrk, rdy, now);
    RunSound(u, Init(wrk, rdy, now), inputs);
    hide Run;
  }

  /** In every run: the acknowledge timer runs iff a transfer does, and then the transfer's list is not empty; the
      response timer runs iff a request is pending, and then no other request is in flight. */
  lemma WatchdogsRun(u: Setup, wrk: bool, rdy: bool, now: nat, inputs: seq<Input>)
    requires Supported(u.config)
    ensures Sound(Init(wrk, rdy, now))
    ensures var s := Run(u, Init(wrk, rdy, now), inputs);
            && Shaped(s)
            && (Running(s.ackTimer) <==> s.transfering.Some?)
            && (s.transfering.Some? ==> s.lists[s.transfering.value] != [])
            && (Running(s.responseTimer) <==> s.pending.Some?)
            && (s.transfering.Some? && s.pending.Some? ==> !IsRequest(InFlight(s).Type()))
  {
    InitSound(wrk, rdy, now);
    RunSound(u, Init(wrk, rdy, now), inputs);
    hide Run;
  }

  /** In every run a transfer is attempted once more than it was retried and never more than three times, failures
      are reported after exactly three attempts, and completion and idle reports are true. */
  lemma ReportsHonest(u: Setup, wrk: bool, rdy: bool, now: nat, inputs: seq<Input>)
    requires Supported(u.config)
    ensures Sound(Init(wrk, rdy, now))
    ensures var s := Run(u, Init(wrk, rdy, now), inputs);
            && (s.transfering.Some? ==> Attempts(s.log) == s.txAttempts + 1)
            && AttemptsBounded(s.log) && Honest(s.log)
  {
    InitSound(wrk, rdy, now);
    RunSound(u, Init(wrk, rdy, now), inputs);
    hide Run;
  }

  /** The newest acknowledged request is never overwritten: an acknowledge makes a request pending only when none is. */
  lemma PendingNotOverwritten(u: Setup, s: Link)
    requires Supported(u.config) && Sound(s) && s.pending.Some?
    ensures AcknowledgeMsg(u, s).pending == s.pending
  {
    hide TriggerNext;
    if s.transfering.Some? {
      var m := InFlight(s);
      KeepsPending(u, FinalizeTransfer(Note(s.(ackTimer := STOPPED), TransferDone(m, |m.data|))));
    }
  }

  lemma KeepsPending(u: Setup, s: Link)
    requires Supported(u.config) && Shaped(s)
    ensures TriggerNext(u, s).pending == s.pending
  {
  }
}
