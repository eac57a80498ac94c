/**
 The receiving side of the DART link over whole runs: any stream of frames, interleaved with anything else
 the link does, is delivered in order, each frame answered once, and damaged frames are refused.
 */
module DartStreams {
  import opened Wrappers
  import opened DartFrame
  import opened Timers
  import opened DartProtocol
  import opened DartRuns

  /** The messages handed to the application. */
  ghost function Received(l: Log): seq<seq<Byte>> {
    match l
    case Empty => []
    case Then(b, MessageReceived(data)) => Received(b) + [data]
    case Then(b, _) => Received(b)
  }

  /** The single bytes sent: the answers to received frames. */
  ghost function Answers(l: Log): seq<Byte> {
    match l
    case Empty => []
    case Then(b, Push(bytes)) => if |bytes| == 1 then Answers(b) + bytes else Answers(b)
    case Then(b, _) => Answers(b)
  }

  /** The messages that have left the queue, in that order. */
  ghost function Settled(l: Log): seq<Msg> {
    match l
    case Empty => []
    case Then(b, Dequeued(m, _)) => Settled(b) + [m]
    case Then(b, _) => Settled(b)
  }

  ghost function Failures(l: Log): nat {
    match l
    case Empty => 0
    case Then(b, TransferFailure(_)) => Failures(b) + 1
    case Then(b, _) => Failures(b)
  }

  /** How many messages have left the queue because they were acknowledged. */
  ghost function Acks(l: Log): int {
    |Settled(l)| - Failures(l)
  }

  /** How often TRANSFER_CORRUPTED was reported, and TRANSFER_INCOMPLETE. */
  ghost function Corrupted(l: Log): nat {
    match l
    case Empty => 0
    case Then(b, TransferCorrupted) => Corrupted(b) + 1
    case Then(b, _) => Corrupted(b)
  }

  ghost function Incomplete(l: Log): nat {
    match l
    case Empty => 0
    case Then(b, TransferIncomplete) => Incomplete(b) + 1
    case Then(b, _) => Incomplete(b)
  }

  ghost predicate SameFaults(l: Log, l': Log) {
    Corrupted(l') == Corrupted(l) && Incomplete(l') == Incomplete(l)
  }

  /** The step neither receives nor answers. */
  ghost predicate SameHearing(s: Link, s': Link) {
    && s'.rx == s.rx && s'.rxTimer == s.rxTimer
    && Received(s'.log) == Received(s.log) && Answers(s'.log) == Answers(s.log) && SameFaults(s.log, s'.log)
  }

  /** Nor is a message taken to be acknowledged. */
  ghost predicate SameReception(s: Link, s': Link) {
    SameHearing(s, s') && Acks(s'.log) == Acks(s.log)
  }

  lemma TransferMsgQuiet(u: Setup, s: Link, m: Msg)
    requires Supported(u.config)
    ensures SameReception(s, TransferMsg(u, s, m))
  {
    var s' := TransferMsg(u, s, m);
    assert |s'.log.event.bytes| != 1;
    assert Received(s'.log.before) == Received(s.log) && Answers(s'.log.before) == Answers(s.log);
    assert Acks(s'.log.before) == Acks(s.log) && SameFaults(s.log, s'.log.before);
  }

  lemma TriggerTransferQuiet(u: Setup, s: Link)
    requires Supported(u.config) && Shaped(s)
    ensures SameReception(s, TriggerTransfer(u, s).0) && SameReception(s, TriggerNext(u, s))
  {
    hide TransferMsg;
    if s.transfering.None? && RaiseWrk(s).Some? {
      var s1 := RaiseWrk(s).value;
      if s1.rdy && FindNext(s1).Some? {
        var p := FindNext(s1).value;
        var m := s1.lists[p][0];
        var s2 := Note(s1, Started(m.id, s1.wrk, s1.rdy)).(transfering := Some(p), txAttempts := 0, wakeupAttempts := 0,
                                           closingTimer := STOPPED, wakeupTimer := STOPPED);
        TransferMsgQuiet(u, s2, m);
      }
    }
  }

  lemma DequeueAcks(s: Link)
    requires Shaped(s) && s.transfering.Some?
    ensures Shaped(Dequeue(s)) && SameHearing(s, Dequeue(s)) && Acks(Dequeue(s).log) == Acks(s.log) + 1
  {
  }

  /** A message that leaves the queue counts as acknowledged unless a failure was reported. */
  lemma FinalizeTransferQuiet(s: Link, e: Event)
    requires Shaped(s) && s.transfering.Some? && (e.TransferDone? || e.TransferFailure?)
    ensures Shaped(FinalizeTransfer(Note(s, e))) && SameHearing(s, FinalizeTransfer(Note(s, e)))
    ensures Acks(FinalizeTransfer(Note(s, e)).log) == Acks(s.log) + if e.TransferDone? then 1 else 0
  {
    var s1 := Note(s, e);
    assert SameHearing(s, s1) && Acks(s1.log) == Acks(s.log) - if e.TransferDone? then 0 else 1;
    DequeueAcks(s1);
    assert SameReception(Dequeue(s1), FinalizeTransfer(s1));
  }

  lemma RetryTransferQuiet(u: Setup, s: Link)
    requires Supported(u.config) && Shaped(s)
    ensures SameReception(s, RetryTransfer(u, s))
  {
    hide TransferMsg, TriggerNext, FinalizeTransfer;
    if s.transfering.Some? {
      var m := s.lists[s.transfering.value][0];
      var s1 := s.(ackTimer := STOPPED, txAttempts := s.txAttempts + 1);
      TransferMsgQuiet(u, s1, m);
      FinalizeTransferQuiet(s1, TransferFailure(m));
      TriggerTransferQuiet(u, FinalizeTransfer(Note(s1, TransferFailure(m))));
    }
  }

  lemma AcknowledgeMsgQuiet(u: Setup, s: Link)
    requires Supported(u.config) && Shaped(s)
    ensures var s' := AcknowledgeMsg(u, s);
            SameHearing(s, s') && Acks(s'.log) == Acks(s.log) + if s.transfering.Some? then 1 else 0
  {
    hide TriggerNext, FinalizeTransfer, Dequeue;
    if s.transfering.Some? {
      var m := s.lists[s.transfering.value][0];
      var s1 := s.(ackTimer := STOPPED);
      FinalizeTransferQuiet(s1, TransferDone(m, |m.data|));
      DequeueAcks(s1);
      TriggerTransferQuiet(u, FinalizeTransfer(Note(s1, TransferDone(m, |m.data|))));
      TriggerTransferQuiet(u, Dequeue(s1).(responseTimer := Timer(s.now, RESPONSE_TIMER), pending := Some(m)));
    }
  }

  lemma FinalizeRequestQuiet(u: Setup, s: Link, e: Event)
    requires Supported(u.config) && Shaped(s) && s.pending.Some? && (e.TransferDone? || e.MessageAbandoned?)
    ensures SameReception(s, FinalizeRequest(u, Note(s, e)))
  {
    hide TriggerNext;
    var s1 := Note(s, e);
    var s2 := Note(s1, Freed(s.pending.value.id)).(responseTimer := STOPPED, pending := None);
    assert SameReception(s, s1) && SameReception(s1, s2);
    TriggerTransferQuiet(u, s2);
  }

  lemma HandleTimeQuiet(u: Setup, s0: Link)
    requires Supported(u.config) && Shaped(s0)
    ensures SameReception(s0, HandleTime(u, s0).0)
  {
    hide RetryTransfer, TriggerTransfer, FinalizeRequest;
    AbandonShaped(u, s0);
    var s := if s0.pending.Some? && Expired(s0.responseTimer, s0.now) then AbandonRequest(u, s0) else s0;
    if s0.pending.Some? {
      FinalizeRequestQuiet(u, s0, MessageAbandoned(s0.pending.value));
    }
    hide AbandonRequest, HandleQuiet;
    if s.transfering.Some? {
      RetryTransferQuiet(u, s.(ackTimer := STOPPED));
    } else if FindNext(s).Some? {
      TriggerTransferQuiet(u, s);
    } else {
      HandleQuietQuiet(s);
    }
  }

  lemma HandleQuietQuiet(s: Link)
    requires Shaped(s)
    ensures SameReception(s, HandleQuiet(s).0)
  {
  }

  lemma SendMsgQuiet(u: Setup, s: Link, prio: nat, data: seq<Byte>, memory: bool)
    requires Supported(u.config) && Shaped(s)
    ensures SameReception(s, SendMsg(u, s, prio, data, memory).0)
  {
    hide TriggerTransfer;
    var m := Msg(s.nextId, data);
    var p := if prio == PRIO_ANY then GuessPriority(m.Type()) else prio;
    if p < PRIO_LENGTH {
      var s1 := Note(s, Queued(m, p)).(lists := s.lists[p := s.lists[p] + [m]], nextId := s.nextId + 1);
      assert SameReception(s, s1);
      TriggerTransferQuiet(u, s1);
    }
  }

  /** Only an arriving byte touches the receive buffer. */
  lemma OtherStepQuiet(u: Setup, s: Link, i: Input)
    requires Supported(u.config) && Shaped(s) && !i.Char?
    ensures SameReception(s, Step(u, s, i))
  {
    hide HandleTime, SendMsg;
    match i
    case Tick => HandleTimeQuiet(u, s);
    case Clock(_) =>
    case Send(prio, data, memory) => SendMsgQuiet(u, s, prio, data, memory);
    case SetRdy(_) =>
  }

  // ---------------------------------------------------------------- frames as they arrive

  /** A frame with room in the buffer, whose data and check bytes may be damaged, a frame header that announces more
      than there is room for, or a single byte between frames. */
  datatype Arrival = Arrival(data: seq<Byte>, check: seq<Byte>) | Oversize(len: nat) | Signal(ch: Byte)

  predicate Fits(c: Config, a: Arrival) {
    && Supported(c)
    && match a
       case Signal(ch) => ch != SYNC
       case Oversize(n) => n < LenLimit(c) && c.rxSize < FrameBytes(c, n)
       case Arrival(data, check) =>
         |data| < LenLimit(c) && |check| == c.crcSize && FrameBytes(c, |data|) <= c.rxSize
  }

  predicate Intact(c: Config, a: Arrival) {
    a.Arrival? && a.check == CheckBytes(c, a.data)
  }

  function Wire(c: Config, a: Arrival): (f: seq<Byte>)
    requires Fits(c, a)
    ensures |f| == match a case Signal(_) => 1 case Oversize(_) => HeaderBytes(c) case _ => FrameBytes(c, |a.data|)
  {
    match a
    case Signal(ch) => [ch]
    case Oversize(n) => [SYNC] + LenField(c, n)
    case Arrival(data, check) => [SYNC] + LenField(c, |data|) + data + check
  }

  /** What the receiver reads at each point of the frame. */
  lemma WireFields(c: Config, a: Arrival, k: nat)
    requires Fits(c, a) && a.Arrival? && k <= |Wire(c, a)|
    ensures Wire(c, a)[0] == SYNC
    ensures HeaderBytes(c) <= k ==> GetLen(c, Wire(c, a)[..k]) == |a.data|
    ensures k == |Wire(c, a)| ==>
              && GetData(c, Wire(c, a)[..k], |a.data|) == a.data
              && GetCheck(c, Wire(c, a)[..k], |a.data|) == a.check
  {
    var f := Wire(c, a);
    var n := |a.data|;
    assert f[1..HeaderBytes(c)] == LenField(c, n);
    assert f[1] == LenField(c, n)[0];
    assert c.lenSize == 2 ==> f[2] == LenField(c, n)[1];
    if k == |f| {
      assert f[..k] == f;
      assert f[HeaderBytes(c)..HeaderBytes(c) + n] == a.data;
      assert f[HeaderBytes(c) + n..FrameBytes(c, n)] == a.check;
    }
  }

  lemma OversizeField(c: Config, a: Arrival)
    requires Fits(c, a) && a.Oversize?
    ensures Wire(c, a)[0] == SYNC && GetLen(c, Wire(c, a)) == a.len
  {
    assert Wire(c, a)[1] == LenField(c, a.len)[0];
    assert c.lenSize == 2 ==> Wire(c, a)[2] == LenField(c, a.len)[1];
  }

  /** No byte timeout is pending. */
  predicate Timely(s: Link) {
    !(Running(s.rxTimer) && Expired(s.rxTimer, s.now))
  }

  ghost function DeliveredBy(c: Config, a: Arrival): seq<seq<Byte>> {
    if Intact(c, a) then [a.data] else []
  }

  function AnswerTo(c: Config, a: Arrival): seq<Byte> {
    if !a.Arrival? then [] else if Intact(c, a) then [ACK] else [BAD]
  }

  function AckSignal(a: Arrival): nat {
    if a == Signal(ACK) then 1 else 0
  }

  /** A damaged frame and an oversize header are reported. */
  function FaultOf(c: Config, a: Arrival): nat {
    if a.Oversize? || (a.Arrival? && !Intact(c, a)) then 1 else 0
  }

  /** A byte inside the frame is stored and nothing else happens. */
  lemma ByteStored(u: Setup, s: Link, a: Arrival, k: nat)
    requires Supported(u.config) && Shaped(s) && Fits(u.config, a) && Timely(s)
    requires k + 1 < |Wire(u.config, a)| && s.rx == Wire(u.config, a)[..k]
    ensures var s' := HandleReceivedChar(u, s, Wire(u.config, a)[k]);
            && s'.rx == Wire(u.config, a)[..k + 1]
            && Received(s'.log) == Received(s.log) && Answers(s'.log) == Answers(s.log)
            && Acks(s'.log) == Acks(s.log) && SameFaults(s.log, s'.log)
  {
    hide CheckBytes, GetLen, Wire;
    var f := Wire(u.config, a);
    var s1 := Store(s, f[k]);
    assert s1.rx == f[..k + 1];
    if a.Arrival? {
      WireFields(u.config, a, k + 1);
    } else {
      OversizeField(u.config, a);
    }
    if k == 0 {
      assert f[..1] == [f[0]];
    }
  }

  /** A single byte between frames delivers and answers nothing; one that is ACK may settle one message. */
  lemma SignalHandled(u: Setup, s: Link, ch: Byte)
    requires Supported(u.config) && Shaped(s) && Timely(s) && s.rx == [] && ch != SYNC
    ensures var s' := HandleReceivedChar(u, s, ch);
            && s'.rx == [] && Received(s'.log) == Received(s.log) && Answers(s'.log) == Answers(s.log)
            && Acks(s'.log) <= Acks(s.log) + AckSignal(Signal(ch)) && SameFaults(s.log, s'.log)
  {
    hide AcknowledgeMsg, RetryTransfer, TriggerTransfer;
    var s1 := Store(s, ch);
    AcknowledgeMsgQuiet(u, s1);
    RetryTransferQuiet(u, s1);
    TriggerTransferQuiet(u, s1);
  }

  /** The last byte of the frame delivers it, or refuses it, and empties the buffer. */
  lemma FrameAnswered(u: Setup, s: Link, a: Arrival)
    requires Supported(u.config) && Shaped(s) && Fits(u.config, a) && a.Arrival? && Timely(s)
    requires s.rx == Wire(u.config, a)[..|Wire(u.config, a)| - 1]
    ensures var s' := HandleReceivedChar(u, s, Last(Wire(u.config, a)));
            && s'.rx == []
            && Received(s'.log) == Received(s.log) + DeliveredBy(u.config, a)
            && Answers(s'.log) == Answers(s.log) + AnswerTo(u.config, a)
            && Acks(s'.log) == Acks(s.log)
            && Corrupted(s'.log) == Corrupted(s.log) + FaultOf(u.config, a) && Incomplete(s'.log) == Incomplete(s.log)
  {
    hide CheckBytes, GetLen, Wire, HandleFrame;
    var c := u.config;
    var f := Wire(c, a);
    var s1 := Store(s, f[|f| - 1]);
    assert s1.rx == f[..|f|];
    WireFields(c, a, |f|);
    assert HandleReceivedChar(u, s, f[|f| - 1]) == HandleFrame(u, s1, |a.data|);
    FrameHandled(u, s1, a);
  }

  /** The same once the frame is complete. */
  lemma FrameHandled(u: Setup, s: Link, a: Arrival)
    requires Supported(u.config) && Shaped(s) && a.Arrival? && FrameBytes(u.config, |a.data|) <= |s.rx|
    requires GetData(u.config, s.rx, |a.data|) == a.data && GetCheck(u.config, s.rx, |a.data|) == a.check
    ensures var s' := HandleFrame(u, s, |a.data|);
            && s'.rx == []
            && Received(s'.log) == Received(s.log) + DeliveredBy(u.config, a)
            && Answers(s'.log) == Answers(s.log) + AnswerTo(u.config, a)
            && Acks(s'.log) == Acks(s.log)
            && Corrupted(s'.log) == Corrupted(s.log) + FaultOf(u.config, a) && Incomplete(s'.log) == Incomplete(s.log)
  {
    hide CheckBytes, FinalizeRequest;
    if Intact(u.config, a) {
      var s1 := Note(s, Push([ACK]));
      var s2 := Note(s1, MessageReceived(a.data));
      assert Answers(s1.log) == Answers(s.log) + [ACK] && Received(s1.log) == Received(s.log);
      assert Answers(s2.log) == Answers(s1.log) && Received(s2.log) == Received(s.log) + [a.data];
      assert Acks(s1.log) == Acks(s.log) && Acks(s2.log) == Acks(s.log);
      assert SameFaults(s.log, s1.log) && SameFaults(s.log, s2.log);
      if s2.pending.Some? {
        FinalizeRequestQuiet(u, s2, TransferDone(s2.pending.value, |a.data|));
      }
    } else {
      var s1 := Note(s, Push([BAD]));
      assert Answers(s1.log) == Answers(s.log) + [BAD] && Received(s1.log) == Received(s.log);
      assert Acks(s1.log) == Acks(s.log) && SameFaults(s.log, s1.log);
    }
  }

  /** The last byte of a header that announces too much empties the buffer; nothing is answered. */
  lemma OversizeRefused(u: Setup, s: Link, a: Arrival)
    requires Supported(u.config) && Shaped(s) && Fits(u.config, a) && a.Oversize? && Timely(s)
    requires s.rx == Wire(u.config, a)[..|Wire(u.config, a)| - 1]
    ensures var s' := HandleReceivedChar(u, s, Last(Wire(u.config, a)));
            && s'.rx == [] && Received(s'.log) == Received(s.log) && Answers(s'.log) == Answers(s.log)
            && Acks(s'.log) == Acks(s.log)
            && Corrupted(s'.log) == Corrupted(s.log) + 1 && Incomplete(s'.log) == Incomplete(s.log)
  {
    hide GetLen, Wire, HandleFrame;
    var f := Wire(u.config, a);
    var s1 := Store(s, Last(f));
    assert s1.rx == f;
    OversizeField(u.config, a);
    assert HandleReceivedChar(u, s, Last(f)) == DropFrame(Note(s1, TransferCorrupted));
  }

  lemma LastByte(u: Setup, s: Link, a: Arrival)
    requires Supported(u.config) && Shaped(s) && Fits(u.config, a) && Timely(s)
    requires s.rx == Wire(u.config, a)[..|Wire(u.config, a)| - 1]
    ensures var s' := HandleReceivedChar(u, s, Last(Wire(u.config, a)));
            && s'.rx == []
            && Received(s'.log) == Received(s.log) + DeliveredBy(u.config, a)
            && Answers(s'.log) == Answers(s.log) + AnswerTo(u.config, a)
            && Acks(s'.log) <= Acks(s.log) + AckSignal(a)
            && Corrupted(s'.log) == Corrupted(s.log) + FaultOf(u.config, a) && Incomplete(s'.log) == Incomplete(s.log)
  {
    hide HandleReceivedChar, CheckBytes;
    match a
    case Signal(ch) => SignalHandled(u, s, ch);
    case Oversize(_) => OversizeRefused(u, s, a);
    case Arrival(_, _) => FrameAnswered(u, s, a);
  }

  // ---------------------------------------------------------------- streams

  /** The bytes of the frames, one after the other. */
  function Stream(c: Config, arrivals: seq<Arrival>): seq<Byte>
    requires forall a :: a in arrivals ==> Fits(c, a)
  {
    if arrivals == [] then [] else Wire(c, arrivals[0]) + Stream(c, arrivals[1..])
  }

  ghost function Delivered(c: Config, arrivals: seq<Arrival>): seq<seq<Byte>> {
    if arrivals == [] then [] else DeliveredBy(c, arrivals[0]) + Delivered(c, arrivals[1..])
  }

  function AnswersTo(c: Config, arrivals: seq<Arrival>): seq<Byte> {
    if arrivals == [] then [] else AnswerTo(c, arrivals[0]) + AnswersTo(c, arrivals[1..])
  }

  function Faults(c: Config, arrivals: seq<Arrival>): nat {
    if arrivals == [] then 0 else FaultOf(c, arrivals[0]) + Faults(c, arrivals[1..])
  }

  function AckSignals(arrivals: seq<Arrival>): nat {
    if arrivals == [] then 0 else AckSignal(arrivals[0]) + AckSignals(arrivals[1..])
  }

  /** The bytes among the inputs. */
  function Chars(inputs: seq<Input>): seq<Byte> {
    if inputs == [] then []
    else if inputs[0].Char? then [inputs[0].ch] + Chars(inputs[1..])
    else Chars(inputs[1..])
  }

  /** The input is an ACK between frames, which the link takes for an answer; it need not have anything in flight. */
  predicate ReadsAck(s: Link, i: Input) {
    i == Char(ACK) && |Store(s, ACK).rx| == 1
  }

  /** How many of them a run reads. */
  ghost function AcksRead(u: Setup, s: Link, inputs: seq<Input>): nat
    requires Supported(u.config) && Sound(s)
    decreases |inputs|
  {
    if inputs == [] then 0
    else
      StepSound(u, s, inputs[0]);
      (if ReadsAck(s, inputs[0]) then 1 else 0) + AcksRead(u, Step(u, s, inputs[0]), inputs[1..])
  }

  /** Every byte arrives before the byte timer of its frame expires. */
  ghost predicate NoTimeout(u: Setup, s: Link, inputs: seq<Input>)
    requires Supported(u.config) && Sound(s)
    decreases |inputs|
  {
    inputs == [] ||
    ((inputs[0].Char? ==> Timely(s)) && (StepSound(u, s, inputs[0]); NoTimeout(u, Step(u, s, inputs[0]), inputs[1..])))
  }

  /** k bytes of the first frame are in the buffer and `bytes` is what is left of the frames. */
  ghost predicate Midway(c: Config, s: Link, arrivals: seq<Arrival>, k: nat, bytes: seq<Byte>) {
    && (forall a :: a in arrivals ==> Fits(c, a))
    && (if arrivals == [] then k == 0 && s.rx == []
        else k < |Wire(c, arrivals[0])| && s.rx == Wire(c, arrivals[0])[..k])
    && k <= |Stream(c, arrivals)| && bytes == Stream(c, arrivals)[k..]
  }

  /** What has been delivered, answered and settled, and what the frames still in the air will add. */
  ghost predicate SameTotal(c: Config, s: Link, arrivals: seq<Arrival>, s': Link, arrivals': seq<Arrival>) {
    && Received(s'.log) + Delivered(c, arrivals') == Received(s.log) + Delivered(c, arrivals)
    && Answers(s'.log) + AnswersTo(c, arrivals') == Answers(s.log) + AnswersTo(c, arrivals)
    && Acks(s'.log) + AckSignals(arrivals') <= Acks(s.log) + AckSignals(arrivals)
    && Corrupted(s'.log) + Faults(c, arrivals') == Corrupted(s.log) + Faults(c, arrivals)
    && Incomplete(s'.log) == Incomplete(s.log)
  }

  /** The next byte expected is the next one of the first frame. */
  lemma NextByte(c: Config, s: Link, arrivals: seq<Arrival>, k: nat, bytes: seq<Byte>)
    requires bytes != [] && Midway(c, s, arrivals, k, bytes)
    ensures arrivals != [] && Fits(c, arrivals[0])
    ensures k < |Wire(c, arrivals[0])| && bytes[0] == Wire(c, arrivals[0])[k] && s.rx == Wire(c, arrivals[0])[..k]
    ensures k + 1 <= |Stream(c, arrivals)| && bytes[1..] == Stream(c, arrivals)[k + 1..]
  {
    hide Wire, Fits;
    var stream := Stream(c, arrivals);
    assert bytes[0] == stream[k];
    assert bytes[1..] == stream[k + 1..];
  }

  /** Inside a frame no byte is read as an answer; an ACK between frames is. */
  lemma AckPosition(c: Config, s: Link, a: Arrival, k: nat)
    requires Fits(c, a) && Timely(s) && k < |Wire(c, a)| && s.rx == Wire(c, a)[..k]
    ensures ReadsAck(s, Char(Wire(c, a)[k])) <==> a == Signal(ACK)
  {
    if a.Arrival? {
      WireFields(c, a, k);
    } else if a.Oversize? {
      OversizeField(c, a);
    }
  }

  lemma CharStep(u: Setup, s: Link, arrivals: seq<Arrival>, k: nat, bytes: seq<Byte>)
    returns (arrivals': seq<Arrival>, k': nat)
    requires Supported(u.config) && Shaped(s) && Timely(s) && bytes != [] && Midway(u.config, s, arrivals, k, bytes)
    ensures var s' := HandleReceivedChar(u, s, bytes[0]);
            Midway(u.config, s', arrivals', k', bytes[1..]) && SameTotal(u.config, s, arrivals, s', arrivals')
    ensures (if ReadsAck(s, Char(bytes[0])) then 1 else 0) + AckSignals(arrivals') == AckSignals(arrivals)
    ensures arrivals' == arrivals || (arrivals != [] && arrivals' == arrivals[1..])
  {
    hide HandleReceivedChar, Wire, Fits, DeliveredBy, AnswerTo, Timely, Shaped, Stream, ReadsAck;
    var c := u.config;
    NextByte(c, s, arrivals, k, bytes);
    AckPosition(c, s, arrivals[0], k);
    SignalIsShort(c, arrivals[0]);
    if k + 1 < |Wire(c, arrivals[0])| {
      hide Delivered, AnswersTo;
      ByteStored(u, s, arrivals[0], k);
      arrivals', k' := arrivals, k + 1;
    } else {
      LastByte(u, s, arrivals[0]);
      FrameConsumed(c, HandleReceivedChar(u, s, bytes[0]), arrivals, bytes[1..]);
      FrameTotal(c, s, arrivals, HandleReceivedChar(u, s, bytes[0]));
      hide Midway, SameTotal;
      arrivals', k' := arrivals[1..], 0;
    }
  }

  lemma SignalIsShort(c: Config, a: Arrival)
    requires Fits(c, a)
    ensures a.Signal? ==> |Wire(c, a)| == 1
  {
  }

  lemma FrameTotal(c: Config, s: Link, arrivals: seq<Arrival>, s': Link)
    requires arrivals != []
    requires Received(s'.log) == Received(s.log) + DeliveredBy(c, arrivals[0])
    requires Answers(s'.log) == Answers(s.log) + AnswerTo(c, arrivals[0])
    requires Acks(s'.log) <= Acks(s.log) + AckSignal(arrivals[0]) && Incomplete(s'.log) == Incomplete(s.log)
    requires Corrupted(s'.log) == Corrupted(s.log) + FaultOf(c, arrivals[0])
    ensures SameTotal(c, s, arrivals, s', arrivals[1..])
  {
    hide DeliveredBy, AnswerTo, Received, Answers;
    Grouped(Received(s.log), DeliveredBy(c, arrivals[0]), Delivered(c, arrivals[1..]));
    Grouped(Answers(s.log), AnswerTo(c, arrivals[0]), AnswersTo(c, arrivals[1..]));
  }

  lemma Grouped<T>(a: seq<T>, b: seq<T>, c: seq<T>)
    ensures (a + b) + c == a + (b + c)
  {
  }

  /** After the last byte of the first frame. */
  lemma FrameConsumed(c: Config, s': Link, arrivals: seq<Arrival>, bytes: seq<Byte>)
    requires arrivals != [] && (forall a :: a in arrivals ==> Fits(c, a)) && s'.rx == []
    requires bytes == Stream(c, arrivals)[|Wire(c, arrivals[0])|..]
    ensures Midway(c, s', arrivals[1..], 0, bytes)
  {
    hide Wire, Fits;
    var rest := arrivals[1..];
    assert bytes == Stream(c, rest) == Stream(c, rest)[0..];
    if rest != [] {
      assert Wire(c, rest[0])[..0] == [];
    }
  }

  /** With k bytes of the first frame in the buffer, a run whose bytes are the next of the frames, among any other
      inputs, delivers and answers the frames in order; `later` is what has not arrived at the end. */
  lemma {:induction false} RestDelivered(u: Setup, s: Link, inputs: seq<Input>, arrivals: seq<Arrival>, k: nat,
                                         later: seq<Byte>)
    returns (arrivals'': seq<Arrival>, k'': nat)
    requires Supported(u.config) && Sound(s) && NoTimeout(u, s, inputs)
    requires Midway(u.config, s, arrivals, k, Chars(inputs) + later)
    ensures var s' := Run(u, s, inputs);
            Midway(u.config, s', arrivals'', k'', later) && SameTotal(u.config, s, arrivals, s', arrivals'')
    ensures AcksRead(u, s, inputs) + AckSignals(arrivals'') == AckSignals(arrivals)
    ensures |arrivals''| <= |arrivals| && arrivals'' == arrivals[|arrivals| - |arrivals''|..]
    decreases |inputs|
  {
    hide Sound, HandleReceivedChar, SameTotal, Midway, ReadsAck, AckSignals, HandleTime, SendMsg;
    SoundParts(s);
    if inputs == [] {
      assert Chars(inputs) + later == later;
      SameTotalSelf(u.config, s, arrivals);
      arrivals'', k'' := arrivals, k;
    } else {
      var i, rest := inputs[0], inputs[1..];
      StepSound(u, s, i);
      var s1 := Step(u, s, i);
      if i.Char? {
        assert (Chars(inputs) + later)[1..] == Chars(rest) + later;
        var arrivals', k' := CharStep(u, s, arrivals, k, Chars(inputs) + later);
        arrivals'', k'' := RestDelivered(u, s1, rest, arrivals', k', later);
        SameTotalSteps(u.config, s, arrivals, s1, arrivals', Run(u, s, inputs), arrivals'');
      } else {
        OtherStepQuiet(u, s, i);
        assert !ReadsAck(s, i) by { OnlyCharsRead(s, i); }
        QuietMidway(u.config, s, s1, arrivals, k, Chars(inputs) + later);
        arrivals'', k'' := RestDelivered(u, s1, rest, arrivals, k, later);
        SameTotalSteps(u.config, s, arrivals, s1, arrivals, Run(u, s, inputs), arrivals'');
      }
    }
  }

  lemma OnlyCharsRead(s: Link, i: Input)
    ensures ReadsAck(s, i) ==> i == Char(ACK)
  {
  }

  lemma AllConsumed(c: Config, s: Link, arrivals: seq<Arrival>, k: nat)
    requires Midway(c, s, arrivals, k, [])
    ensures s.rx == [] && arrivals == []
  {
    hide Wire, Fits;
  }

  lemma SameTotalSelf(c: Config, s: Link, arrivals: seq<Arrival>)
    ensures SameTotal(c, s, arrivals, s, arrivals)
  {
  }

  lemma QuietMidway(c: Config, s: Link, s': Link, arrivals: seq<Arrival>, k: nat, bytes: seq<Byte>)
    requires SameReception(s, s') && Midway(c, s, arrivals, k, bytes)
    ensures Midway(c, s', arrivals, k, bytes) && SameTotal(c, s, arrivals, s', arrivals)
  {
  }

  lemma SameTotalSteps(c: Config, s: Link, a: seq<Arrival>, s1: Link, a1: seq<Arrival>, s2: Link, a2: seq<Arrival>)
    requires SameTotal(c, s, a, s1, a1) && SameTotal(c, s1, a1, s2, a2)
    ensures SameTotal(c, s, a, s2, a2)
  {
  }

  /** Before the first byte. */
  lemma StartsStream(c: Config, s: Link, arrivals: seq<Arrival>)
    requires (forall x :: x in arrivals ==> Fits(c, x)) && s.rx == []
    ensures Midway(c, s, arrivals, 0, Stream(c, arrivals))
  {
    hide Wire, Fits;
    if arrivals != [] {
      assert Wire(c, arrivals[0])[..0] == [];
    }
  }

  /** From an idle receiver, at any point of a stream of frames: the messages delivered are the first of the intact
      ones in order, and the answers the first of theirs. */
  lemma StreamDeliveredSoFar(u: Setup, s: Link, inputs: seq<Input>, arrivals: seq<Arrival>)
    requires Supported(u.config) && Sound(s) && s.rx == [] && NoTimeout(u, s, inputs)
    requires forall a :: a in arrivals ==> Fits(u.config, a)
    requires Chars(inputs) <= Stream(u.config, arrivals)
    ensures var s' := Run(u, s, inputs);
            && Received(s'.log) <= Received(s.log) + Delivered(u.config, arrivals)
            && Answers(s'.log) <= Answers(s.log) + AnswersTo(u.config, arrivals)
            && Acks(s'.log) <= Acks(s.log) + AckSignals(arrivals)
            && AcksRead(u, s, inputs) <= AckSignals(arrivals)
  {
    var stream := Stream(u.config, arrivals);
    var later := stream[|Chars(inputs)|..];
    StartsStream(u.config, s, arrivals);
    assert stream == Chars(inputs) + later;
    hide Wire, Fits, Sound, Stream, NoTimeout, Run, AcksRead, Chars, Received, Answers;
    var arrivals', k := RestDelivered(u, s, inputs, arrivals, 0, later);
  }

  /** From an idle receiver: frames in, intact messages out in order, one answer each, and an empty buffer. */
  lemma StreamDelivered(u: Setup, s: Link, inputs: seq<Input>, arrivals: seq<Arrival>)
    requires Supported(u.config) && Sound(s) && s.rx == [] && NoTimeout(u, s, inputs)
    requires forall a :: a in arrivals ==> Fits(u.config, a)
    requires Chars(inputs) == Stream(u.config, arrivals)
    ensures var s' := Run(u, s, inputs);
            && s'.rx == []
            && Received(s'.log) == Received(s.log) + Delivered(u.config, arrivals)
            && Answers(s'.log) == Answers(s.log) + AnswersTo(u.config, arrivals)
            && AcksRead(u, s, inputs) == AckSignals(arrivals)
            && Corrupted(s'.log) == Corrupted(s.log) + Faults(u.config, arrivals)
            && Incomplete(s'.log) == Incomplete(s.log)
  {
    StartsStream(u.config, s, arrivals);
    assert Chars(inputs) + [] == Chars(inputs);
    hide Wire, Fits, Sound, Stream, Midway, NoTimeout, Run, AcksRead, Chars, Received, Answers;
    var arrivals', k := RestDelivered(u, s, inputs, arrivals, 0, []);
    AllConsumed(u.config, Run(u, s, inputs), arrivals', k);
  }

  /** The frames dart_push_frame makes of these messages. */
  function Sent(c: Config, datas: seq<seq<Byte>>): seq<Arrival> {
    seq(|datas|, i requires 0 <= i < |datas| => Arrival(datas[i], CheckBytes(c, datas[i])))
  }

  lemma {:induction false} SentIntact(c: Config, datas: seq<seq<Byte>>)
    ensures Delivered(c, Sent(c, datas)) == datas
    ensures AnswersTo(c, Sent(c, datas)) == seq(|datas|, i => ACK)
  {
    hide CheckBytes;
    if datas != [] {
      SentIntact(c, datas[1..]);
      assert Sent(c, datas)[1..] == Sent(c, datas[1..]);
      assert datas == [datas[0]] + datas[1..];
      assert seq(|datas|, i => ACK) == [ACK] + seq(|datas[1..]|, i => ACK);
    }
  }

  /** A message the receiver has room for. */
  predicate Receivable(c: Config, data: seq<Byte>) {
    Supported(c) && |data| < LenLimit(c) && FrameBytes(c, |data|) <= c.rxSize
  }

  /** What dart_push_frame sends for each message, one after the other. */
  function Pushed(c: Config, datas: seq<seq<Byte>>): seq<Byte>
    requires forall i :: 0 <= i < |datas| ==> Receivable(c, datas[i])
  {
    if datas == [] then []
    else
      assert Receivable(c, datas[0]);
      Frame(c, datas[0]) + Pushed(c, datas[1..])
  }

  lemma SentFits(c: Config, datas: seq<seq<Byte>>)
    requires forall i :: 0 <= i < |datas| ==> Receivable(c, datas[i])
    ensures forall a :: a in Sent(c, datas) ==> Fits(c, a)
  {
    hide CheckBytes;
    forall a | a in Sent(c, datas) ensures Fits(c, a) {
      var i :| 0 <= i < |datas| && Sent(c, datas)[i] == a;
    }
  }

  lemma {:induction false} PushedIsStream(c: Config, datas: seq<seq<Byte>>)
    requires forall i :: 0 <= i < |datas| ==> Receivable(c, datas[i])
    requires forall a :: a in Sent(c, datas) ==> Fits(c, a)
    ensures Pushed(c, datas) == Stream(c, Sent(c, datas))
  {
    if datas != [] {
      hide CheckBytes, Frame, Wire, Fits, Receivable;
      var arrivals := Sent(c, datas);
      assert arrivals[1..] == Sent(c, datas[1..]);
      SentFits(c, datas[1..]);
      PushedIsStream(c, datas[1..]);
      assert arrivals[0] == Arrival(datas[0], CheckBytes(c, datas[0]));
      FrameIsWire(c, datas[0]);
      assert Stream(c, arrivals) == Wire(c, arrivals[0]) + Stream(c, arrivals[1..]);
      assert Pushed(c, datas) == Frame(c, datas[0]) + Pushed(c, datas[1..]);
    }
  }

  lemma FrameIsWire(c: Config, data: seq<Byte>)
    requires Receivable(c, data)
    ensures Supported(c) && |data| < LenLimit(c) && Fits(c, Arrival(data, CheckBytes(c, data)))
    ensures Frame(c, data) == Wire(c, Arrival(data, CheckBytes(c, data)))
  {
  }

  /** Round trip: the frames the sender makes of any messages are delivered as exactly those messages, in order,
      each acknowledged once, whatever else the link does in between. */
  lemma RoundTrip(u: Setup, s: Link, inputs: seq<Input>, datas: seq<seq<Byte>>)
    requires Supported(u.config) && Sound(s) && s.rx == [] && NoTimeout(u, s, inputs)
    requires forall i :: 0 <= i < |datas| ==> Receivable(u.config, datas[i])
    requires Chars(inputs) == Pushed(u.config, datas)
    ensures var s' := Run(u, s, inputs);
            && s'.rx == []
            && Received(s'.log) == Received(s.log) + datas
            && Answers(s'.log) == Answers(s.log) + seq(|datas|, i => ACK)
  {
    hide Sound, CheckBytes;
    SentFits(u.config, datas);
    PushedIsStream(u.config, datas);
    SentIntact(u.config, datas);
    StreamDelivered(u, s, inputs, Sent(u.config, datas));
  }

  /** Error detection: a frame damaged within 8 consecutive bits of its data and check bytes, or 16 with two check
      bytes, is answered BAD and never delivered. */
  lemma DamageRefused(u: Setup, s: Link, inputs: seq<Input>, sent: seq<Byte>, data: seq<Byte>, check: seq<Byte>,
                      at: nat)
    requires Supported(u.config) && Sound(s) && s.rx == [] && NoTimeout(u, s, inputs)
    requires SmallDamage(u.config, sent, data, check, at) && |data| == |sent| && |check| == u.config.crcSize
    requires |sent| < LenLimit(u.config) && FrameBytes(u.config, |sent|) <= u.config.rxSize
    requires Chars(inputs) == [SYNC] + LenField(u.config, |sent|) + data + check
    ensures var s' := Run(u, s, inputs);
            && s'.rx == []
            && Received(s'.log) == Received(s.log)
            && Answers(s'.log) == Answers(s.log) + [BAD]
  {
    hide Sound, CheckBytes, SmallDamage;
    var c := u.config;
    var a := Arrival(data, check);
    SmallDamageDetected(c, sent, data, check, at);
    assert Fits(c, a) && !Intact(c, a);
    assert Stream(c, [a]) == Wire(c, a) + Stream(c, []) == Wire(c, a);
    assert [a][1..] == [];
    StreamDelivered(u, s, inputs, [a]);
    assert Delivered(c, [a]) == [] && AnswersTo(c, [a]) == [BAD];
  }

  // ---------------------------------------------------------------- the receive buffer

  /** No arriving byte makes the write index leave the buffer, provided the buffer can hold a frame header. */
  lemma StepReceiving(u: Setup, s: Link, i: Input)
    requires Supported(u.config) && HeaderBytes(u.config) <= u.config.rxSize && Shaped(s) && Receiving(u.config, s)
    ensures Receiving(u.config, Step(u, s, i))
  {
    if i.Char? {
      CharReceiving(u, s, i.ch);
    } else {
      hide HandleTime, SendMsg;
      OtherStepQuiet(u, s, i);
    }
  }

  lemma WriteInside(c: Config, s: Link)
    requires Receiving(c, s)
    ensures |s.rx| < c.rxSize
  {
  }

  lemma CharReceiving(u: Setup, s: Link, ch: Byte)
    requires Supported(u.config) && HeaderBytes(u.config) <= u.config.rxSize && Shaped(s) && Receiving(u.config, s)
    ensures Receiving(u.config, HandleReceivedChar(u, s, ch))
  {
    hide HandleFrame, AcknowledgeMsg, RetryTransfer, TriggerTransfer;
    var c := u.config;
    var s1 := Store(s, ch);
    if |s1.rx| == 1 {
    } else if |s1.rx| < HeaderBytes(c) {
    } else {
      var n := GetLen(c, s1.rx);
      if c.rxSize < FrameBytes(c, n) {
      } else if |s1.rx| < FrameBytes(c, n) {
      } else {
        HandleFrameEmpties(u, s1, n);
      }
    }
  }

  lemma HandleFrameEmpties(u: Setup, s: Link, n: nat)
    requires Supported(u.config) && Shaped(s) && FrameBytes(u.config, n) <= |s.rx|
    ensures HandleFrame(u, s, n).rx == [] && HandleFrame(u, s, n).rxTimer == STOPPED
  {
    hide HandleReceivedMsg, CheckBytes;
  }

  /** In every run the write index stays inside the buffer. */
  lemma {:induction false} RunReceiving(u: Setup, s: Link, inputs: seq<Input>)
    requires Supported(u.config) && HeaderBytes(u.config) <= u.config.rxSize && Sound(s) && Receiving(u.config, s)
    ensures Receiving(u.config, Run(u, s, inputs))
    decreases |inputs|
  {
    hide Sound, Receiving;
    if inputs != [] {
      SoundParts(s);
      StepSound(u, s, inputs[0]);
      StepReceiving(u, s, inputs[0]);
      RunReceiving(u, Step(u, s, inputs[0]), inputs[1..]);
    }
  }

  /** A buffer too small for a frame header is filled by the bytes 0x55, so the next write would leave it. */
  lemma SmallBufferFills(u: Setup, wrk: bool, rdy: bool, now: nat)
    requires Supported(u.config) && u.config.rxSize < HeaderBytes(u.config)
    ensures Sound(Init(wrk, rdy, now))
    ensures |Run(u, Init(wrk, rdy, now), seq(u.config.rxSize, i => Char(SYNC))).rx| == u.config.rxSize
  {
    InitSound(wrk, rdy, now);
    var s := Init(wrk, rdy, now);
    var n := u.config.rxSize;
    if n == 1 {
      assert seq(n, i => Char(SYNC)) == [Char(SYNC)];
      SyncStored(u, s);
    } else if n == 2 {
      assert seq(n, i => Char(SYNC)) == [Char(SYNC), Char(SYNC)];
      SyncStored(u, s);
      var s1 := Step(u, s, Char(SYNC));
      StepSound(u, s, Char(SYNC));
      SyncStored(u, s1);
      assert [Char(SYNC), Char(SYNC)][1..] == [Char(SYNC)];
    }
  }

  lemma SyncStored(u: Setup, s: Link)
    requires Supported(u.config) && Sound(s) && Timely(s)
    requires |s.rx| + 1 < HeaderBytes(u.config) + if s.rx == [] then 1 else 0
    ensures Shaped(s)
    ensures var s' := HandleReceivedChar(u, s, SYNC);
            |s'.rx| == |s.rx| + 1 && s'.now == s.now && Timely(s')
    ensures |Run(u, s, [Char(SYNC)]).rx| == |s.rx| + 1
  {
    hide Sound;
    SoundParts(s);
    SyncByte(u, s);
    hide HandleReceivedChar, Timely;
    StepSound(u, s, Char(SYNC));
    assert [Char(SYNC)][1..] == [];
    assert Run(u, s, [Char(SYNC)]) == HandleReceivedChar(u, s, SYNC);
  }

  lemma SyncByte(u: Setup, s: Link)
    requires Supported(u.config) && Shaped(s) && Timely(s)
    requires |s.rx| + 1 < HeaderBytes(u.config) + (if s.rx == [] then 1 else 0)
    ensures var s' := HandleReceivedChar(u, s, SYNC);
            |s'.rx| == |s.rx| + 1 && s'.now == s.now && Timely(s')
  {
  }
}
