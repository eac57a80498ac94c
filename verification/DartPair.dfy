/**
 Two DART links joined by a wire: what one sends, over any run, is what the other hands to its application.
 The sender's side of the argument is that its output consists of whole frames of messages that were sent,
 and of single answer bytes between them.
 */
module DartPair {
  import opened Wrappers
  import opened DartFrame
  import opened Timers
  import opened DartProtocol
  import opened DartRuns
  import opened DartStreams

  /** All bytes sent. */
  ghost function Output(l: Log): seq<Byte> {
    match l
    case Empty => []
    case Then(b, Push(bytes)) => Output(b) + bytes
    case Then(b, _) => Output(b)
  }

  /** The messages that were queued. */
  ghost function SentMsgs(l: Log): set<Msg> {
    match l
    case Empty => {}
    case Then(b, Queued(m, _)) => SentMsgs(b) + {m}
    case Then(b, _) => SentMsgs(b)
  }

  predicate AfterAttempt(l: Log) {
    l.Then? && l.event.Attempt?
  }

  /** The data of the frames sent, in order: one for each dart_transfer_msg. */
  ghost function Transfers(u: Setup, l: Log): seq<seq<Byte>> {
    match l
    case Empty => []
    case Then(b, Push(bytes)) =>
      if AfterAttempt(b) then Transfers(u, b) + [Content(u, b.event.msg)] else Transfers(u, b)
    case Then(b, _) => Transfers(u, b)
  }

  /** The message that was attempted and has not left the queue since. */
  ghost function Unsettled(l: Log): Option<Msg> {
    match l
    case Empty => None
    case Then(b, Attempt(m)) => Some(m)
    case Then(b, Dequeued(_, _)) => None
    case Then(b, _) => Unsettled(b)
  }

  ghost function QueuedCount(l: Log): nat {
    match l
    case Empty => 0
    case Then(b, Queued(_, _)) => QueuedCount(b) + 1
    case Then(b, _) => QueuedCount(b)
  }

  /** The messages that have left the queue. */
  ghost function SettledSet(l: Log): set<Msg> {
    match l
    case Empty => {}
    case Then(b, Dequeued(m, _)) => SettledSet(b) + {m}
    case Then(b, _) => SettledSet(b)
  }

  /** The type of the message is that of a request: the top bits are 01. */
  predicate Requests(m: Msg) {
    m.data != [] && 64 <= m.data[0] < 128
  }

  /** These data are a response, the top bits being 10, to the request with the same low six bits. */
  predicate Responds(data: seq<Byte>, m: Msg) {
    Requests(m) && data != [] && 128 <= data[0] < 192 && data[0] - 128 == m.data[0] - 64
  }

  /** A request is reported done only for its response, directly after that is handed on, with its length. */
  predicate ForResponse(b: Log, m: Msg, len: nat) {
    Requests(m) ==> b.Then? && b.event.MessageReceived? && Responds(b.event.data, m) && len == |b.event.data|
  }

  /** The messages of one priority that were queued and have not left the queue. */
  ghost function Waits(l: Log, prio: nat): seq<Msg> {
    match l
    case Empty => []
    case Then(b, Queued(m, p)) => if p == prio then Waits(b, prio) + [m] else Waits(b, prio)
    case Then(b, Dequeued(m, p)) => if p == prio && Waits(b, prio) != [] then Waits(b, prio)[1..] else Waits(b, prio)
    case Then(b, _) => Waits(b, prio)
  }

  /** The next message of this priority, while all that wait with a higher one wait behind a request. */
  ghost predicate IsNext(l: Log, id: nat, p: nat) {
    && p < 3 && Waits(l, p) != [] && Waits(l, p)[0].id == id
    && forall q :: 0 <= q < p ==> Waits(l, q) == [] || Requests(Waits(l, q)[0])
  }

  ghost predicate Chosen(l: Log, id: nat) {
    exists p :: IsNext(l, id, p)
  }

  /** Every transfer is of a message that was sent, and sends its frame; everything else sent is an answer byte.
      A message leaves the queue, and is reported done, only after it was transferred; at completion all have left
      it. Messages are numbered as they are queued. */
  ghost predicate WellSent(u: Setup, l: Log)
    requires Supported(u.config)
  {
    match l
    case Empty => true
    case Then(b, e) =>
      && WellSent(u, b)
      && if AfterAttempt(b) then e == Push(FrameOf(u.config, Content(u, b.event.msg)))
         else match e
              case Push(bytes) => bytes == [ACK] || bytes == [BAD]
              case Attempt(m) => m in SentMsgs(b)
              case Dequeued(m, _) => Unsettled(b) == Some(m)
              case Started(id, _, _) => Chosen(b, id)
              case Queued(m, _) => m.id == QueuedCount(b)
              case TransferComplete(_, queued) => queued == QueuedCount(b) && SentMsgs(b) <= SettledSet(b)
              case TransferDone(m, len) => (m in SettledSet(b) || Unsettled(b) == Some(m)) && ForResponse(b, m, len)
              case Freed(id) => id < QueuedCount(b)
              case _ => true
  }

  /** The number of ACK bytes sent. */
  ghost function AckPushes(l: Log): nat {
    match l
    case Empty => 0
    case Then(b, Push(bytes)) => AckPushes(b) + if bytes == [ACK] then 1 else 0
    case Then(b, _) => AckPushes(b)
  }

  ghost predicate Genuine(u: Setup, s: Link) {
    && Supported(u.config) && Shaped(s)
    && WellSent(u, s.log) && !AfterAttempt(s.log)
    && AckPushes(s.log) == |Received(s.log)| && QueuedCount(s.log) == s.nextId
    && (s.transfering.Some? ==> Unsettled(s.log) == Some(InFlight(s)))
    && (forall p :: 0 <= p < PRIO_LENGTH ==> forall m :: m in s.lists[p] ==> m in SentMsgs(s.log))
    && (s.pending.Some? ==> s.pending.value in SentMsgs(s.log) && s.pending.value in SettledSet(s.log))
    && Accounted(s) && Listed(s)
  }

  ghost predicate Listed(s: Link)
    requires Shaped(s)
  {
    s.lists[0] == Waits(s.log, 0) && s.lists[1] == Waits(s.log, 1) && s.lists[2] == Waits(s.log, 2)
  }

  /** Every message sent is in its list or has left the queue. */
  ghost predicate Accounted(s: Link)
    requires Shaped(s)
  {
    forall m :: m in SentMsgs(s.log) ==> m in SettledSet(s.log) || m in s.lists[0] || m in s.lists[1] || m in s.lists[2]
  }

  // ---------------------------------------------------------------- the sender's invariant

  lemma NoteGenuine(u: Setup, s: Link, e: Event)
    requires Genuine(u, s) && !e.Push? && !e.Attempt? && !e.Queued? && !e.Dequeued? && !e.MessageReceived?
    requires (e.TransferComplete? ==> e.queued == s.nextId && Outstanding(s) == 0) && (e.Freed? ==> e.id < s.nextId)
    requires e.TransferDone? ==> (e.msg in SettledSet(s.log) || Unsettled(s.log) == Some(e.msg)) &&
                                 ForResponse(s.log, e.msg, e.len)
    requires e.Started? ==> Chosen(s.log, e.id)
    ensures Genuine(u, Note(s, e))
  {
  }

  lemma BadGenuine(u: Setup, s: Link)
    requires Genuine(u, s)
    ensures Genuine(u, Note(s, Push([BAD])))
  {
    assert Unsettled(Note(s, Push([BAD])).log) == Unsettled(s.log);
    assert QueuedCount(Note(s, Push([BAD])).log) == QueuedCount(s.log);
  }

  lemma AckGenuine(u: Setup, s: Link, data: seq<Byte>)
    requires Genuine(u, s)
    ensures Genuine(u, Note(Note(s, Push([ACK])), MessageReceived(data)))
  {
    var l := Then(s.log, Push([ACK]));
    assert WellSent(u, l) && SentMsgs(l) == SentMsgs(s.log) && Unsettled(l) == Unsettled(s.log);
    assert AckPushes(l) == AckPushes(s.log) + 1 && Received(l) == Received(s.log) && QueuedCount(l) == s.nextId;
  }

  /** Fields the invariant does not mention. */
  lemma OtherFields(u: Setup, s: Link, s': Link)
    requires Genuine(u, s) && Shaped(s')
    requires s'.log == s.log && s'.lists == s.lists && s'.pending == s.pending
    requires (s'.transfering.None? || s'.transfering == s.transfering) && s'.nextId == s.nextId
    ensures Genuine(u, s')
  {
  }

  lemma TransferMsgGenuine(u: Setup, s: Link)
    requires Shaped(s) && s.transfering.Some? && Genuine(u, s.(transfering := None)) && InFlight(s) in SentMsgs(s.log)
    ensures Genuine(u, TransferMsg(u, s, InFlight(s)))
  {
    hide FrameOf, Content;
    var m := InFlight(s);
    var l := Then(s.log, Attempt(m));
    assert WellSent(u, l) && SentMsgs(l) == SentMsgs(s.log) && Unsettled(l) == Some(m);
    assert AckPushes(l) == AckPushes(s.log) && Received(l) == Received(s.log) && QueuedCount(l) == s.nextId;
    assert SettledSet(l) == SettledSet(s.log) && forall p :: Waits(l, p) == Waits(s.log, p);
    FrameIsNoAnswer(u, m);
  }

  lemma FrameIsNoAnswer(u: Setup, m: Msg)
    requires Supported(u.config)
    ensures |FrameOf(u.config, Content(u, m))| > 1
  {
  }

  lemma InList(u: Setup, s: Link, p: nat)
    requires Genuine(u, s) && p < PRIO_LENGTH && s.lists[p] != []
    ensures s.lists[p][0] in SentMsgs(s.log) && s.lists[p][0].id < s.nextId
  {
    SentNumbered(u, s.log, s.lists[p][0]);
  }

  lemma {:induction false} SentNumbered(u: Setup, l: Log, m: Msg)
    requires Supported(u.config) && WellSent(u, l) && m in SentMsgs(l)
    ensures m.id < QueuedCount(l)
    decreases l
  {
    if m in SentMsgs(l.before) {
      SentNumbered(u, l.before, m);
    }
  }

  lemma TriggerTransferGenuine(u: Setup, s: Link)
    requires Genuine(u, s)
    ensures Genuine(u, TriggerTransfer(u, s).0)
  {
    hide Genuine, TransferMsg;
    GenuineShaped(u, s);
    if s.transfering.None? {
      if RaiseWrk(s).None? {
        OtherFields(u, s, s.(wakeupAttempts := 0));
        NoteGenuine(u, s.(wakeupAttempts := 0), TransferImpossible);
      } else {
        var s1 := RaiseWrk(s).value;
        OtherFields(u, s, s1);
        if !s1.rdy {
          NoteGenuine(u, s1, Waiting);
        } else if FindNext(s1).Some? {
          StartTransferGenuine(u, s1, FindNext(s1).value);
        }
      }
    }
  }

  lemma GenuineShaped(u: Setup, s: Link)
    requires Genuine(u, s)
    ensures Supported(u.config) && Shaped(s)
    ensures s.transfering.Some? ==> Unsettled(s.log) == Some(InFlight(s))
    ensures s.pending.Some? ==> s.pending.value in SettledSet(s.log)
  {
  }

  lemma NextChosen(u: Setup, s: Link, p: nat)
    requires Genuine(u, s) && FindNext(s) == Some(p)
    ensures Chosen(s.log, s.lists[p][0].id)
  {
    forall q | 0 <= q < p ensures Waits(s.log, q) == [] || Requests(Waits(s.log, q)[0]) {
      assert !Sendable(s, q);
    }
    assert IsNext(s.log, s.lists[p][0].id, p);
  }

  lemma StartTransferGenuine(u: Setup, s: Link, p: nat)
    requires Genuine(u, s) && s.transfering.None? && FindNext(s) == Some(p)
    ensures Genuine(u, StartTransfer(u, s, p))
  {
    hide Genuine, TransferMsg, Chosen;
    NextChosen(u, s, p);
    GenuineShaped(u, s);
    var m := s.lists[p][0];
    var s1 := Note(s, Started(m.id, s.wrk, s.rdy));
    NoteGenuine(u, s, Started(m.id, s.wrk, s.rdy));
    InList(u, s1, p);
    var s2 := s1.(transfering := Some(p), txAttempts := 0, wakeupAttempts := 0, closingTimer := STOPPED,
                  wakeupTimer := STOPPED);
    OtherFields(u, s1, s2.(transfering := None));
    TransferMsgGenuine(u, s2);
  }

  lemma TriggerNextGenuine(u: Setup, s: Link)
    requires Genuine(u, s)
    ensures Genuine(u, TriggerNext(u, s))
  {
    GenuineShaped(u, s);
    TriggerTransferGenuine(u, s);
    var (s1, status) := TriggerTransfer(u, s);
    GenuineShaped(u, s1);
    if status == Nothing {
      NothingMeansEmpty(u, s);
      hide Genuine, TriggerTransfer;
      NoteGenuine(u, s1, TransferComplete(Outstanding(s1), s1.nextId));
    }
  }

  lemma DequeueGenuine(u: Setup, s: Link)
    requires Genuine(u, s) && s.transfering.Some?
    ensures Genuine(u, Dequeue(s))
  {
    var l := s.lists[s.transfering.value];
    assert forall m :: m in l[1..] ==> m in l;
  }

  lemma FinalizeTransferGenuine(u: Setup, s: Link)
    requires Genuine(u, s)
    ensures Genuine(u, FinalizeTransfer(s))
  {
    hide Genuine;
    GenuineShaped(u, s);
    if s.transfering.Some? {
      DequeueGenuine(u, s);
      InList(u, s, s.transfering.value);
      NoteGenuine(u, Dequeue(s), Freed(s.lists[s.transfering.value][0].id));
    }
  }

  lemma RetryTransferGenuine(u: Setup, s: Link)
    requires Genuine(u, s)
    ensures Genuine(u, RetryTransfer(u, s))
  {
    hide Genuine, TransferMsg, TriggerNext, FinalizeTransfer;
    GenuineShaped(u, s);
    if s.transfering.Some? {
      var m := s.lists[s.transfering.value][0];
      var s1 := s.(ackTimer := STOPPED, txAttempts := s.txAttempts + 1);
      OtherFields(u, s, s1);
      InList(u, s1, s.transfering.value);
      OtherFields(u, s1, s1.(transfering := None));
      TransferMsgGenuine(u, s1);
      NoteGenuine(u, s1, TransferFailure(m));
      FinalizeTransferGenuine(u, Note(s1, TransferFailure(m)));
      TriggerNextGenuine(u, FinalizeTransfer(Note(s1, TransferFailure(m))));
    }
  }

  lemma AcknowledgeMsgGenuine(u: Setup, s: Link)
    requires Genuine(u, s)
    ensures Genuine(u, AcknowledgeMsg(u, s))
  {
    hide Genuine, TriggerNext, FinalizeTransfer;
    GenuineShaped(u, s);
    if s.transfering.Some? {
      var m := s.lists[s.transfering.value][0];
      var s1 := s.(ackTimer := STOPPED);
      OtherFields(u, s, s1);
      if IsRequest(m.Type()) {
        PendGenuine(u, s1);
        TriggerNextGenuine(u, Dequeue(s1).(responseTimer := Timer(s.now, RESPONSE_TIMER), pending := Some(m)));
      } else {
        NoteGenuine(u, s1, TransferDone(m, |m.data|));
        FinalizeTransferGenuine(u, Note(s1, TransferDone(m, |m.data|)));
        TriggerNextGenuine(u, FinalizeTransfer(Note(s1, TransferDone(m, |m.data|))));
      }
    }
  }

  lemma PendGenuine(u: Setup, s: Link)
    requires Genuine(u, s) && s.transfering.Some?
    ensures Genuine(u, Dequeue(s).(responseTimer := Timer(s.now, RESPONSE_TIMER), pending := Some(InFlight(s))))
  {
    DequeueGenuine(u, s);
  }

  lemma FinalizeRequestGenuine(u: Setup, s: Link, e: Event)
    requires Genuine(u, s) && s.pending.Some? && FinishEvent(e, s.pending.value) && !e.TransferFailure?
    requires e.TransferDone? ==> ForResponse(s.log, e.msg, e.len)
    ensures Genuine(u, FinalizeRequest(u, Note(s, e)))
  {
    hide TriggerNext;
    NoteGenuine(u, s, e);
    SentNumbered(u, s.log, s.pending.value);
    var s1 := Note(s, e);
    NoteGenuine(u, s1, Freed(s.pending.value.id));
    TriggerNextGenuine(u, Note(s1, Freed(s.pending.value.id)).(responseTimer := STOPPED, pending := None));
  }

  lemma AbandonRequestGenuine(u: Setup, s: Link)
    requires Genuine(u, s)
    ensures Genuine(u, AbandonRequest(u, s))
  {
    hide Genuine, FinalizeRequest;
    GenuineShaped(u, s);
    if s.pending.Some? {
      FinalizeRequestGenuine(u, s, MessageAbandoned(s.pending.value));
    }
  }

  /** The byte that is taken for the type: the first one, or, behind no data, one that is no response. */
  predicate TypeRead(data: seq<Byte>, t: Byte) {
    if data == [] then t == 255 else t == data[0]
  }

  lemma FrameType(c: Config, rx: seq<Byte>, n: nat)
    requires Supported(c) && FrameBytes(c, n) <= |rx| && CheckBytes(c, GetData(c, rx, n)) == GetCheck(c, rx, n)
    ensures TypeRead(GetData(c, rx, n), rx[HeaderBytes(c)])
  {
    if n == 0 {
      assert GetData(c, rx, n) == [];
      EmptyCheck(c);
      hide CheckBytes;
      assert GetCheck(c, rx, n)[0] == rx[HeaderBytes(c)];
    } else {
      assert GetData(c, rx, n)[0] == rx[HeaderBytes(c)];
    }
  }

  lemma HandleReceivedMsgGenuine(u: Setup, s: Link, data: seq<Byte>, t: Byte)
    requires Genuine(u, s) && TypeRead(data, t)
    ensures Shaped(Note(s, Push([ACK]))) && Genuine(u, HandleReceivedMsg(u, Note(s, Push([ACK])), data, t))
  {
    hide Genuine, FinalizeRequest;
    GenuineShaped(u, s);
    var s1 := Note(Note(s, Push([ACK])), MessageReceived(data));
    AckGenuine(u, s, data);
    if s1.pending.Some? && IsResponse(t) && s1.pending.value.Type() % 64 == t % 64 {
      FinalizeRequestGenuine(u, s1, TransferDone(s1.pending.value, |data|));
    }
  }

  lemma HandleFirstCharGenuine(u: Setup, s: Link, ch: Byte)
    requires Genuine(u, s)
    ensures Genuine(u, HandleFirstChar(u, s, ch))
  {
    hide Genuine, AcknowledgeMsg, RetryTransfer, TriggerTransfer;
    GenuineShaped(u, s);
    if ch == SYNC {
      OtherFields(u, s, HandleFirstChar(u, s, ch));
    } else {
      AcknowledgeMsgGenuine(u, s);
      RetryTransferGenuine(u, s);
      TriggerTransferGenuine(u, s);
      var s1 := if !s.wrk then s
                else if ch == ACK then AcknowledgeMsg(u, s)
                else if ch == BAD then RetryTransfer(u, s)
                else if ch == CAN then TriggerTransfer(u, s).0
                else s;
      GenuineShaped(u, s1);
      OtherFields(u, s1, DropFrame(s1));
    }
  }

  lemma HandleFrameGenuine(u: Setup, s: Link, n: nat)
    requires Genuine(u, s) && FrameBytes(u.config, n) <= |s.rx|
    ensures Genuine(u, HandleFrame(u, s, n))
  {
    hide Genuine, HandleReceivedMsg, CheckBytes;
    GenuineShaped(u, s);
    var c := u.config;
    var data := GetData(c, s.rx, n);
    if CheckBytes(c, data) == GetCheck(c, s.rx, n) {
      FrameType(c, s.rx, n);
      HandleReceivedMsgGenuine(u, s, data, s.rx[HeaderBytes(c)]);
      var s1 := HandleReceivedMsg(u, Note(s, Push([ACK])), data, s.rx[HeaderBytes(c)]);
      GenuineShaped(u, s1);
      OtherFields(u, s1, DropFrame(s1));
    } else {
      BadGenuine(u, s);
      NoteGenuine(u, Note(s, Push([BAD])), TransferCorrupted);
      var s1 := Note(Note(s, Push([BAD])), TransferCorrupted);
      OtherFields(u, s1, DropFrame(s1));
    }
  }

  lemma HandleReceivedCharGenuine(u: Setup, s: Link, ch: Byte)
    requires Genuine(u, s)
    ensures Genuine(u, HandleReceivedChar(u, s, ch))
  {
    hide Genuine, HandleFirstChar, HandleFrame, GetLen;
    GenuineShaped(u, s);
    NoteGenuine(u, s, TransferIncomplete);
    var s1 := Store(s, ch);
    OtherFields(u, if Running(s.rxTimer) && Expired(s.rxTimer, s.now) then Note(s, TransferIncomplete) else s, s1);
    if |s1.rx| == 1 {
      HandleFirstCharGenuine(u, s1, ch);
    } else if HeaderBytes(u.config) <= |s1.rx| {
      var n := GetLen(u.config, s1.rx);
      if u.config.rxSize < FrameBytes(u.config, n) {
        NoteGenuine(u, s1, TransferCorrupted);
        OtherFields(u, Note(s1, TransferCorrupted), DropFrame(Note(s1, TransferCorrupted)));
      } else if FrameBytes(u.config, n) <= |s1.rx| {
        HandleFrameGenuine(u, s1, n);
      }
    }
  }

  lemma HandleQuietGenuine(u: Setup, s: Link)
    requires Genuine(u, s)
    ensures Shaped(s) && Genuine(u, HandleQuiet(s).0)
  {
    hide Genuine;
    GenuineShaped(u, s);
    var s' := HandleQuiet(s).0;
    if s'.log == s.log {
      OtherFields(u, s, s');
    } else {
      OtherFields(u, s, s.(closingTimer := STOPPED));
      NoteGenuine(u, s.(closingTimer := STOPPED), s'.log.event);
    }
  }

  lemma HandleTimeGenuine(u: Setup, s0: Link)
    requires Genuine(u, s0)
    ensures Genuine(u, HandleTime(u, s0).0)
  {
    hide Genuine, AbandonRequest, RetryTransfer, TriggerTransfer, HandleQuiet;
    GenuineShaped(u, s0);
    AbandonRequestGenuine(u, s0);
    var s := if s0.pending.Some? && Expired(s0.responseTimer, s0.now) then AbandonRequest(u, s0) else s0;
    GenuineShaped(u, s);
    if s.transfering.Some? {
      OtherFields(u, s, s.(ackTimer := STOPPED));
      RetryTransferGenuine(u, s.(ackTimer := STOPPED));
      OtherFields(u, s, s.(ackTimer := STOPPED, transfering := None));
    } else if FindNext(s).Some? {
      OtherFields(u, s, s.(wakeupTimer := STOPPED, wrk := false));
      TriggerTransferGenuine(u, s);
    } else {
      HandleQuietGenuine(u, s);
    }
  }

  lemma SendMsgGenuine(u: Setup, s: Link, prio: nat, data: seq<Byte>, memory: bool)
    requires Genuine(u, s)
    ensures Genuine(u, SendMsg(u, s, prio, data, memory).0)
  {
    hide Genuine, TriggerTransfer;
    GenuineShaped(u, s);
    var m := Msg(s.nextId, data);
    var p := if prio == PRIO_ANY then GuessPriority(m.Type()) else prio;
    if s.running && p < PRIO_LENGTH && memory {
      EnqueueGenuine(u, s, p, m);
      TriggerTransferGenuine(u, Enqueue(s, p, m));
    }
  }

  lemma EnqueueGenuine(u: Setup, s: Link, p: nat, m: Msg)
    requires Genuine(u, s) && p < PRIO_LENGTH && m.id == s.nextId
    ensures Genuine(u, Enqueue(s, p, m))
  {
    var s' := Enqueue(s, p, m);
    assert SentMsgs(s'.log) == SentMsgs(s.log) + {m};
    assert forall m' :: m' in s.lists[p] + [m] ==> m' in s.lists[p] || m' == m;
  }

  lemma StepGenuine(u: Setup, s: Link, i: Input)
    requires Genuine(u, s)
    ensures Genuine(u, Step(u, s, i))
  {
    hide Genuine, HandleReceivedChar, HandleTime, SendMsg;
    GenuineShaped(u, s);
    match i
    case Char(ch) => HandleReceivedCharGenuine(u, s, ch);
    case Tick => HandleTimeGenuine(u, s);
    case Clock(ms) => OtherFields(u, s, s.(now := (s.now + ms) % UINT32));
    case Send(prio, data, memory) => SendMsgGenuine(u, s, prio, data, memory);
    case SetRdy(level) => OtherFields(u, s, s.(rdy := level));
  }

  /** In every run each attempted transfer is of a message that was sent and puts exactly its frame on the wire. */
  lemma {:induction false} RunGenuine(u: Setup, s: Link, inputs: seq<Input>)
    requires Supported(u.config) && Sound(s) && Genuine(u, s)
    ensures Genuine(u, Run(u, s, inputs))
    decreases |inputs|
  {
    hide Sound, Genuine, Step;
    if inputs != [] {
      SoundParts(s);
      StepSound(u, s, inputs[0]);
      StepGenuine(u, s, inputs[0]);
      RunGenuine(u, Step(u, s, inputs[0]), inputs[1..]);
    }
  }

  /** What has left the queue, or is left in flight, has been transferred. */
  lemma {:induction false} SettledTransferred(u: Setup, l: Log, m: Msg)
    requires Supported(u.config) && WellSent(u, l) && !AfterAttempt(l)
    requires m in SettledSet(l) || Unsettled(l) == Some(m)
    ensures Content(u, m) in Transfers(u, l)
    decreases l
  {
    hide FrameOf, Content;
    var b := l.before;
    if AfterAttempt(b) {
      if b.event.msg != m {
        assert SettledSet(l) == SettledSet(b) == SettledSet(b.before) && Unsettled(l) == Unsettled(b) != Some(m);
        assert Transfers(u, b) == Transfers(u, b.before) && !AfterAttempt(b.before);
        SettledTransferred(u, b.before, m);
      }
    } else {
      SettledTransferred(u, b, m);
    }
  }

  // ---------------------------------------------------------------- the output as a stream

  /** The frames and answers sent, as they arrive at the other side. */
  ghost function Items(u: Setup, l: Log): seq<Arrival> {
    match l
    case Empty => []
    case Then(b, Push(bytes)) =>
      Items(u, b) +
      [if AfterAttempt(b) then Arrival(Content(u, b.event.msg), CheckBytes(u.config, Content(u, b.event.msg)))
       else if bytes == [] then Signal(0) else Signal(bytes[0])]
    case Then(b, _) => Items(u, b)
  }

  /** The receiver has room for every message sent. */
  ghost predicate AllReceivable(u: Setup, l: Log) {
    forall m :: m in SentMsgs(l) ==> Receivable(u.config, Content(u, m))
  }

  lemma {:induction false} StreamAppend(c: Config, arrivals: seq<Arrival>, a: Arrival)
    requires (forall x :: x in arrivals ==> Fits(c, x)) && Fits(c, a)
    ensures (forall x :: x in arrivals + [a] ==> Fits(c, x))
    ensures Stream(c, arrivals + [a]) == Stream(c, arrivals) + Wire(c, a)
    ensures Delivered(c, arrivals + [a]) == Delivered(c, arrivals) + DeliveredBy(c, a)
    ensures AnswersTo(c, arrivals + [a]) == AnswersTo(c, arrivals) + AnswerTo(c, a)
  {
    hide Fits, Wire, DeliveredBy, AnswerTo;
    if arrivals == [] {
      assert [] + [a] == [a] && [a][1..] == [];
      assert Stream(c, [a]) == Wire(c, a) + Stream(c, []) == Wire(c, a);
    } else {
      var rest := arrivals[1..];
      assert (arrivals + [a])[0] == arrivals[0] && (arrivals + [a])[1..] == rest + [a];
      StreamAppend(c, rest, a);
      Grouped(Wire(c, arrivals[0]), Stream(c, rest), Wire(c, a));
      Grouped(DeliveredBy(c, arrivals[0]), Delivered(c, rest), DeliveredBy(c, a));
      Grouped(AnswerTo(c, arrivals[0]), AnswersTo(c, rest), AnswerTo(c, a));
    }
  }

  lemma {:induction false} OutputIsStream(u: Setup, l: Log)
    requires Supported(u.config) && WellSent(u, l) && AllReceivable(u, l)
    ensures forall a :: a in Items(u, l) ==> Fits(u.config, a)
    ensures Output(l) == Stream(u.config, Items(u, l))
    ensures Delivered(u.config, Items(u, l)) == Transfers(u, l)
    ensures AnswersTo(u.config, Items(u, l)) == seq(|Transfers(u, l)|, i => ACK)
  {
    hide Fits, Wire, CheckBytes;
    if l.Then? {
      assert AllReceivable(u, l.before);
      OutputIsStream(u, l.before);
      if l.event.Push? {
        PushIsItem(u, l);
        StreamAppend(u.config, Items(u, l.before), Items(u, l)[|Items(u, l.before)|]);
      }
    }
  }

  lemma PushIsItem(u: Setup, l: Log)
    requires Supported(u.config) && WellSent(u, l) && AllReceivable(u, l) && l.Then? && l.event.Push?
    ensures |Items(u, l)| == |Items(u, l.before)| + 1
    ensures var a := Items(u, l)[|Items(u, l.before)|];
            && Fits(u.config, a) && Wire(u.config, a) == l.event.bytes
            && DeliveredBy(u.config, a) == (if AfterAttempt(l.before) then [Content(u, l.before.event.msg)] else [])
            && AnswerTo(u.config, a) == (if AfterAttempt(l.before) then [ACK] else [])
  {
    hide CheckBytes, Content;
    if AfterAttempt(l.before) {
      var content := Content(u, l.before.event.msg);
      assert l.before.event.msg in SentMsgs(l);
      FrameIsWire(u.config, content);
      assert content[..|content| % LenLimit(u.config)] == content;
    }
  }

  // ---------------------------------------------------------------- the other side

  lemma {:induction false} TransfersAreSent(u: Setup, l: Log, data: seq<Byte>) returns (m: Msg)
    requires Supported(u.config) && WellSent(u, l) && data in Transfers(u, l)
    ensures m in SentMsgs(l) && data == Content(u, m)
    decreases l
  {
    if l.event.Push? && AfterAttempt(l.before) && data == Content(u, l.before.event.msg) {
      m := l.before.event.msg;
    } else {
      m := TransfersAreSent(u, l.before, data);
    }
  }

  /** One direction of the wire: the receiver has got the data of the first transfers, in order, and once all
      bytes have arrived the data of all of them, each answered ACK once. */
  lemma WireDelivers(uA: Setup, l: Log, uB: Setup, s: Link, inputs: seq<Input>)
    requires Supported(uA.config) && uB.config == uA.config && WellSent(uA, l) && AllReceivable(uA, l)
    requires Sound(s) && s.rx == [] && NoTimeout(uB, s, inputs)
    requires Chars(inputs) <= Output(l)
    ensures var s' := Run(uB, s, inputs);
            && Received(s'.log) <= Received(s.log) + Transfers(uA, l)
            && (Chars(inputs) == Output(l) ==>
                  && s'.rx == []
                  && Received(s'.log) == Received(s.log) + Transfers(uA, l)
                  && Answers(s'.log) == Answers(s.log) + seq(|Transfers(uA, l)|, i => ACK))
  {
    hide Sound, Fits, Wire, WellSent, NoTimeout;
    OutputIsStream(uA, l);
    StreamDeliveredSoFar(uB, s, inputs, Items(uA, l));
    if Chars(inputs) == Output(l) {
      StreamDelivered(uB, s, inputs, Items(uA, l));
    }
  }

  lemma InitGenuine(u: Setup, wrk: bool, rdy: bool, now: nat)
    requires Supported(u.config)
    ensures Genuine(u, Init(wrk, rdy, now)) && Sound(Init(wrk, rdy, now))
  {
    InitSound(wrk, rdy, now);
  }

  /** What link B has received when link A has the history l: only data of transfers of A, in order, without loss in
      between and without repetition beyond A's own attempts; all of it once every byte has arrived. */
  ghost predicate Hears(uA: Setup, l: Log, inputs: seq<Input>, s: Link) {
    && Received(s.log) <= Transfers(uA, l)
    && (forall data :: data in Received(s.log) ==> exists m :: m in SentMsgs(l) && data == Content(uA, m))
    && (Chars(inputs) == Output(l) ==>
          s.rx == [] && Received(s.log) == Transfers(uA, l) && Answers(s.log) == seq(|Transfers(uA, l)|, i => ACK))
  }

  /** A link as dart_init leaves it. */
  ghost predicate Fresh(s: Link) {
    s == Init(s.wrk, s.rdy, s.now) && Sound(s)
  }

  /** Two links on one wire after any runs: each has read only bytes the other has sent, each byte before the byte
      timer expired, and each has room for the messages sent to it. */
  ghost predicate Joined(uA: Setup, initA: Link, inA: seq<Input>, uB: Setup, initB: Link, inB: seq<Input>) {
    && Supported(uA.config) && uB.config == uA.config && Fresh(initA) && Fresh(initB)
    && NoTimeout(uA, initA, inA) && NoTimeout(uB, initB, inB)
    && var a, b := Run(uA, initA, inA), Run(uB, initB, inB);
    && AllReceivable(uA, a.log) && AllReceivable(uB, b.log)
    && Chars(inB) <= Output(a.log) && Chars(inA) <= Output(b.log)
  }

  /** Whatever else happened to either link, each has heard the other. */
  lemma TwoLinks(uA: Setup, initA: Link, inA: seq<Input>, uB: Setup, initB: Link, inB: seq<Input>)
    requires Joined(uA, initA, inA, uB, initB, inB)
    ensures Hears(uA, Run(uA, initA, inA).log, inB, Run(uB, initB, inB))
    ensures Hears(uB, Run(uB, initB, inB).log, inA, Run(uA, initA, inA))
  {
    hide Run, NoTimeout, AllReceivable, Hears, Output, Genuine;
    FreshGenuine(uA, initA, inA);
    FreshGenuine(uB, initB, inB);
    OneHears(uA, Run(uA, initA, inA), uB, initB, inB);
    OneHears(uB, Run(uB, initB, inB), uA, initA, inA);
  }

  lemma OneHears(uA: Setup, a: Link, uB: Setup, initB: Link, inB: seq<Input>)
    requires Genuine(uA, a) && uB.config == uA.config && AllReceivable(uA, a.log)
    requires Fresh(initB) && NoTimeout(uB, initB, inB)
    requires Chars(inB) <= Output(a.log)
    ensures Hears(uA, a.log, inB, Run(uB, initB, inB))
  {
    var b := Run(uB, initB, inB);
    hide Sound, Run, NoTimeout, AllReceivable;
    WireDelivers(uA, a.log, uB, initB, inB);
    forall data | data in Received(b.log) ensures exists m :: m in SentMsgs(a.log) && data == Content(uA, m) {
      assert data in Transfers(uA, a.log);
      var m := TransfersAreSent(uA, a.log, data);
    }
  }

  // ---------------------------------------------------------------- what an acknowledge means

  /** No message is transferred again, or given up, before the one transferred last has left the queue. */
  ghost predicate NoRepeat(l: Log) {
    match l
    case Empty => true
    case Then(b, Attempt(_)) => NoRepeat(b) && Unsettled(b).None?
    case Then(b, TransferFailure(_)) => false
    case Then(b, _) => NoRepeat(b)
  }

  ghost function Contents(u: Setup, ms: seq<Msg>): seq<seq<Byte>> {
    seq(|ms|, i requires 0 <= i < |ms| => Content(u, ms[i]))
  }

  ghost function UnsettledContent(u: Setup, l: Log): seq<seq<Byte>> {
    if Unsettled(l).Some? then [Content(u, Unsettled(l).value)] else []
  }

  lemma {:induction false} SettledAreTransfers(u: Setup, l: Log)
    requires Supported(u.config) && WellSent(u, l) && NoRepeat(l)
    ensures Failures(l) == 0
    ensures if AfterAttempt(l) then Transfers(u, l) == Contents(u, Settled(l))
            else Transfers(u, l) == Contents(u, Settled(l)) + UnsettledContent(u, l)
  {
    hide FrameOf, Content, ForResponse;
    if l.Then? {
      var b := l.before;
      SettledAreTransfers(u, b);
      if AfterAttempt(b) {
        assert Unsettled(l) == Some(b.event.msg) && Settled(l) == Settled(b);
        assert Transfers(u, l) == Transfers(u, b) + [Content(u, b.event.msg)];
      } else if l.event.Dequeued? {
        assert Contents(u, Settled(l)) == Contents(u, Settled(b)) + [Content(u, l.event.msg)];
      } else {
        assert Settled(l) == Settled(b) && Transfers(u, l) == Transfers(u, b);
        assert l.event.Attempt? ==> Transfers(u, b) == Contents(u, Settled(b)) + [];
      }
    }
  }

  lemma {:induction false} AckItems(u: Setup, l: Log)
    requires Supported(u.config) && WellSent(u, l)
    ensures AckSignals(Items(u, l)) == AckPushes(l)
  {
    if l.Then? {
      AckItems(u, l.before);
      if l.event.Push? {
        AckSignalsAppend(Items(u, l.before), Items(u, l)[|Items(u, l.before)|]);
        if AfterAttempt(l.before) {
          FrameIsNoAnswer(u, l.before.event.msg);
        }
      }
    }
  }

  lemma {:induction false} AckSignalsAppend(arrivals: seq<Arrival>, a: Arrival)
    ensures AckSignals(arrivals + [a]) == AckSignals(arrivals) + AckSignal(a)
  {
    if arrivals == [] {
      assert [] + [a] == [a] && [a][1..] == [];
    } else {
      assert (arrivals + [a])[1..] == arrivals[1..] + [a];
      AckSignalsAppend(arrivals[1..], a);
    }
  }

  /** A link takes no more messages to be acknowledged than the other side has received. */
  lemma AcksAreReceipts(uA: Setup, initA: Link, inA: seq<Input>, uB: Setup, b: Link)
    requires Supported(uB.config) && uB.config == uA.config && Genuine(uB, b) && AllReceivable(uB, b.log)
    requires Fresh(initA) && NoTimeout(uA, initA, inA) && Chars(inA) <= Output(b.log)
    ensures Acks(Run(uA, initA, inA).log) <= |Received(b.log)|
  {
    assert Acks(initA.log) == 0;
    assert WellSent(uB, b.log) && AckPushes(b.log) == |Received(b.log)| && initA.rx == [];
    hide Sound, Run, NoTimeout, AllReceivable, WellSent, Fits, Wire;
    OutputIsStream(uB, b.log);
    StreamDeliveredSoFar(uA, initA, inA, Items(uB, b.log));
    AckItems(uB, b.log);
  }

  /** TRANSFER_DONE means received: if the sender never repeats a transfer, every message it takes to be
      acknowledged has been received by the other side, in order. DartReceipts has the exact condition for each. */
  lemma AcknowledgedIsReceived(uA: Setup, initA: Link, inA: seq<Input>, uB: Setup, initB: Link, inB: seq<Input>)
    requires Joined(uA, initA, inA, uB, initB, inB) && NoRepeat(Run(uA, initA, inA).log)
    ensures Contents(uA, Settled(Run(uA, initA, inA).log)) <= Received(Run(uB, initB, inB).log)
  {
    hide NoTimeout, AllReceivable, Output, Genuine, NoRepeat, Contents, Sound, Run;
    var a, b := Run(uA, initA, inA), Run(uB, initB, inB);
    FreshGenuine(uA, initA, inA);
    FreshGenuine(uB, initB, inB);
    OneHears(uA, a, uB, initB, inB);
    assert Received(b.log) <= Transfers(uA, a.log);
    hide Hears;
    AcksAreReceipts(uA, initA, inA, uB, b);
    SettledPrefix(uA, a, Received(b.log));
  }

  lemma FreshGenuine(u: Setup, s: Link, inputs: seq<Input>)
    requires Supported(u.config) && Fresh(s)
    ensures Genuine(u, Run(u, s, inputs)) && Sound(s) && s.rx == [] && Output(s.log) == []
    ensures WellSent(u, Run(u, s, inputs).log) && !AfterAttempt(Run(u, s, inputs).log)
    ensures AckPushes(Run(u, s, inputs).log) == |Received(Run(u, s, inputs).log)|
  {
    InitGenuine(u, s.wrk, s.rdy, s.now);
    RunGenuine(u, s, inputs);
  }

  lemma SettledPrefix(u: Setup, s: Link, received: seq<seq<Byte>>)
    requires Genuine(u, s) && NoRepeat(s.log) && received <= Transfers(u, s.log) && Acks(s.log) <= |received|
    ensures Contents(u, Settled(s.log)) <= received
  {
    SettledAreTransfers(u, s.log);
  }
}
