/**
 Why DartPair.AcknowledgedIsReceived and DartReceipts need their conditions: after a repeated transfer the
 acknowledge of the repetition is taken for that of the next message, which the other side need not have received.
 */
module DartStaleAck {
  import opened Wrappers
  import opened DartFrame
  import opened Timers
  import opened DartProtocol
  import opened DartRuns
  import opened DartStreams
  import opened DartPair

  /** One length byte, one check byte, no deferred messages. */
  function Small(): Setup {
    Setup(Config(1, 1, 16), (t: Byte) => None)
  }

  const FIRST := Msg(0, [1])
  const SECOND := Msg(1, [2])

  function FrameBits(m: Msg): seq<Byte> {
    FrameOf(Small().config, Content(Small(), m))
  }

  lemma OneStep(u: Setup, s: Link, i: Input, rest: seq<Input>)
    requires Supported(u.config) && Sound(s) && (i.Char? ==> Timely(s))
    ensures Shaped(s) && Sound(Step(u, s, i))
    ensures NoTimeout(u, Step(u, s, i), rest) ==> NoTimeout(u, s, [i] + rest)
    ensures Run(u, s, [i] + rest) == Run(u, Step(u, s, i), rest)
  {
    hide Sound, Step;
    SoundParts(s);
    StepSound(u, s, i);
    assert ([i] + rest)[1..] == rest;
  }

  // ---------------------------------------------------------------- the receiver

  /** Nothing arrives, nothing is awaited. */
  predicate Resting(s: Link) {
    s.rx == [] && s.rxTimer == STOPPED && s.closingTimer == STOPPED && s.pending.None? && s.wrk
  }

  function Heard(s: Link, data: seq<Byte>): Link {
    Note(Note(s, Push([ACK])), MessageReceived(data))
  }

  function FrameInputs(b: Byte, rest: seq<Input>): seq<Input> {
    [Char(SYNC)] + ([Char(1)] + ([Char(b)] + ([Char(CheckBytes(Small().config, [b])[0])] + rest)))
  }

  /** The link with the first bytes of a frame in its buffer, all received at its present time. */
  function Partial(s: Link, rx: seq<Byte>): Link {
    s.(rx := rx, rxTimer := Timer(s.now, BYTE_TIMER))
  }

  lemma HeaderArrives(s: Link)
    requires Shaped(s) && Resting(s)
    ensures Step(Small(), s, Char(SYNC)) == Partial(s, [SYNC])
    ensures Step(Small(), Partial(s, [SYNC]), Char(1)) == Partial(s, [SYNC, 1])
    ensures Timely(s) && forall rx :: Timely(Partial(s, rx))
  {
    hide CheckBytes;
  }

  lemma DataArrives(s: Link, b: Byte)
    requires Shaped(s) && Resting(s)
    ensures Step(Small(), Partial(s, [SYNC, 1]), Char(b)) == Partial(s, [SYNC, 1, b])
  {
    hide HandleFirstChar, HandleFrame;
    var s1 := Store(Partial(s, [SYNC, 1]), b);
    assert s1.rx == [SYNC, 1] + [b] == [SYNC, 1, b];
    assert s1 == Partial(s, [SYNC, 1, b]);
    assert GetLen(Small().config, s1.rx) == 1;
  }

  lemma CheckArrives(s: Link, b: Byte)
    requires Shaped(s) && Resting(s)
    ensures Step(Small(), Partial(s, [SYNC, 1, b]), Char(CheckBytes(Small().config, [b])[0])) == Heard(s, [b])
  {
    hide CheckBytes, AcknowledgeMsg, RetryTransfer, TriggerTransfer;
    var check := CheckBytes(Small().config, [b]);
    assert [check[0]] == check;
    var s1 := Store(Partial(s, [SYNC, 1, b]), check[0]);
    assert s1.rx == [SYNC, 1, b] + check;
    assert GetLen(Small().config, s1.rx) == 1 && GetData(Small().config, s1.rx, 1) == [b];
    assert GetCheck(Small().config, s1.rx, 1) == check;
  }

  /** A resting link receives a one-byte message and rests again. */
  lemma FrameArrives(s: Link, b: Byte, rest: seq<Input>)
    requires Sound(s) && Shaped(s) && Resting(s)
    ensures Sound(Heard(s, [b]))
    ensures NoTimeout(Small(), Heard(s, [b]), rest) ==> NoTimeout(Small(), s, FrameInputs(b, rest))
    ensures Run(Small(), s, FrameInputs(b, rest)) == Run(Small(), Heard(s, [b]), rest)
  {
    HeaderArrives(s);
    DataArrives(s, b);
    CheckArrives(s, b);
    hide Sound, Step, Timely, Heard, Partial;
    var check := Char(CheckBytes(Small().config, [b])[0]);
    OneStep(Small(), s, Char(SYNC), [Char(1)] + ([Char(b)] + ([check] + rest)));
    OneStep(Small(), Partial(s, [SYNC]), Char(1), [Char(b)] + ([check] + rest));
    OneStep(Small(), Partial(s, [SYNC, 1]), Char(b), [check] + rest);
    OneStep(Small(), Partial(s, [SYNC, 1, b]), check, rest);
  }

  // ---------------------------------------------------------------- the sender

  /** The sender in the example: what is queued, in flight and recorded, and its acknowledge timer. */
  function Sender(list: seq<Msg>, inFlight: Option<nat>, ack: Timer, attempts: nat, now: nat, nextId: nat, l: Log): Link
  {
    Link([[], list, []], inFlight, None, STOPPED, 0, ack, STOPPED, attempts, [], STOPPED, STOPPED, true, true, true,
         now, nextId, l)
  }

  function Attempted(l: Log, m: Msg): Log {
    Then(Then(l, Attempt(m)), Push(FrameBits(m)))
  }

  function Acknowledged(l: Log, m: Msg): Log {
    Then(Then(Then(l, TransferDone(m, 1)), Dequeued(m, 1)), Freed(m.id))
  }

  function L1(): Log { Attempted(Then(Then(Empty, Queued(FIRST, 1)), Started(0, true, true)), FIRST) }
  function L2(): Log { Then(L1(), Queued(SECOND, 1)) }
  function L3(): Log { Attempted(L2(), FIRST) }
  function L4(): Log { Attempted(Then(Acknowledged(L3(), FIRST), Started(1, true, true)), SECOND) }
  function L5(): Log { Then(Acknowledged(L4(), SECOND), TransferComplete(0, 2)) }

  function A1(): Link { Sender([FIRST], Some(1), Timer(0, ACK_TIMER), 0, 0, 1, L1()) }
  function A2(now: nat): Link { Sender([FIRST, SECOND], Some(1), Timer(0, ACK_TIMER), 0, now, 2, L2()) }
  function A3(): Link { Sender([FIRST, SECOND], Some(1), Timer(300, ACK_TIMER), 1, 300, 2, L3()) }
  function A4(): Link { Sender([SECOND], Some(1), Timer(300, ACK_TIMER), 0, 300, 2, L4()) }
  function A5(): Link { Sender([], None, STOPPED, 0, 300, 2, L5()) }

  /** Two messages are sent. */
  lemma SenderSends()
    ensures Step(Small(), Init(true, true, 0), DartRuns.Send(1, [1], true)) == A1()
    ensures Step(Small(), A1(), DartRuns.Send(1, [2], true)) == A2(0)
  {
    hide FrameOf;
    var none: seq<Msg> := [];
    assert none + [FIRST] == [FIRST] && [FIRST] + [SECOND] == [FIRST, SECOND];
  }

  /** The first one is repeated after the timeout. */
  lemma SenderRepeats()
    ensures Step(Small(), A2(0), Input.Clock(300)) == A2(300)
    ensures Step(Small(), A2(300), Tick) == A3()
  {
    hide FrameOf;
  }

  /** Both acknowledges arrive; the second is taken for that of the second message. */
  lemma SenderDeceived()
    ensures Step(Small(), A3(), Char(ACK)) == A4() && Timely(A3())
    ensures Step(Small(), A4(), Char(ACK)) == A5() && Timely(A4())
  {
    hide FrameOf;
  }

  // ---------------------------------------------------------------- both

  function SenderInputs(): seq<Input> {
    [DartRuns.Send(1, [1], true)] + ([DartRuns.Send(1, [2], true)] + ([Input.Clock(300)] + ([Tick]
      + ([Char(ACK)] + ([Char(ACK)] + [])))))
  }

  function ReceiverInputs(): seq<Input> {
    FrameInputs(1, FrameInputs(1, []))
  }

  lemma SenderRun()
    ensures Fresh(Init(true, true, 0))
    ensures NoTimeout(Small(), Init(true, true, 0), SenderInputs())
    ensures Run(Small(), Init(true, true, 0), SenderInputs()) == A5()
  {
    var a0 := Init(true, true, 0);
    InitSound(true, true, 0);
    SenderSends();
    SenderRepeats();
    SenderDeceived();
    assert NoTimeout(Small(), a0, []) && Sound(a0);
    hide Sound, Step, Timely, A1, A2, A3, A4, A5, Init, NoTimeout, Run;
    var i6 := [Char(ACK)] + [];
    var i5 := [Char(ACK)] + i6;
    var i4 := [Tick] + i5;
    var i3 := [Input.Clock(300)] + i4;
    var i2 := [DartRuns.Send(1, [2], true)] + i3;
    OneStep(Small(), a0, DartRuns.Send(1, [1], true), i2);
    OneStep(Small(), A1(), DartRuns.Send(1, [2], true), i3);
    OneStep(Small(), A2(0), Input.Clock(300), i4);
    OneStep(Small(), A2(300), Tick, i5);
    OneStep(Small(), A3(), Char(ACK), i6);
    OneStep(Small(), A4(), Char(ACK), []);
    NoMore(A5());
  }

  lemma NoMore(s: Link)
    requires Sound(s)
    ensures NoTimeout(Small(), s, []) && Run(Small(), s, []) == s
  {
  }

  lemma ReceiverRun()
    ensures NoTimeout(Small(), Init(true, true, 0), ReceiverInputs()) && Sound(Init(true, true, 0))
    ensures Run(Small(), Init(true, true, 0), ReceiverInputs()) == Heard(Heard(Init(true, true, 0), [1]), [1])
  {
    var b0 := Init(true, true, 0);
    InitSound(true, true, 0);
    assert Resting(b0) && Resting(Heard(b0, [1])) && Shaped(b0) && Shaped(Heard(b0, [1]));
    hide Sound, Init, Heard, Resting, FrameInputs, NoTimeout, Run;
    FrameArrives(b0, 1, FrameInputs(1, []));
    FrameArrives(Heard(b0, [1]), 1, []);
    NoMore(Heard(Heard(b0, [1]), [1]));
  }

  lemma CharsCons(i: Input, rest: seq<Input>)
    ensures Chars([i] + rest) == if i.Char? then [i.ch] + Chars(rest) else Chars(rest)
  {
    assert ([i] + rest)[1..] == rest;
  }

  lemma FrameChars(b: Byte, rest: seq<Input>)
    ensures Chars(FrameInputs(b, rest)) == FrameBits(Msg(0, [b])) + Chars(rest)
  {
    hide CheckBytes, Chars;
    var check := CheckBytes(Small().config, [b]);
    assert [check[0]] == check;
    var i4 := [Char(check[0])] + rest;
    var i3 := [Char(b)] + i4;
    CharsCons(Char(check[0]), rest);
    CharsCons(Char(b), i4);
    CharsCons(Char(1), i3);
    CharsCons(Char(SYNC), [Char(1)] + i3);
    OneByteFrame(b);
    hide FrameBits;
    assert [SYNC] + ([1] + ([b] + ([check[0]] + Chars(rest)))) == [SYNC] + [1] + [b] + check + Chars(rest);
  }

  lemma OneByteFrame(b: Byte)
    ensures FrameBits(Msg(0, [b])) == [SYNC] + [1] + [b] + CheckBytes(Small().config, [b])
  {
    hide CheckBytes;
    assert [b][..1] == [b];
  }

  lemma AttemptedLog(l: Log, m: Msg)
    ensures Output(Attempted(l, m)) == Output(l) + FrameBits(m)
    ensures Settled(Attempted(l, m)) == Settled(l) && SentMsgs(Attempted(l, m)) == SentMsgs(l)
    ensures Failures(Attempted(l, m)) == Failures(l)
  {
    hide FrameOf;
    var l1 := Then(l, Attempt(m));
    assert Output(l1) == Output(l) && Settled(l1) == Settled(l);
    assert SentMsgs(l1) == SentMsgs(l) && Failures(l1) == Failures(l);
  }

  lemma AcknowledgedLog(l: Log, m: Msg)
    ensures Output(Acknowledged(l, m)) == Output(l)
    ensures Settled(Acknowledged(l, m)) == Settled(l) + [m] && SentMsgs(Acknowledged(l, m)) == SentMsgs(l)
    ensures Failures(Acknowledged(l, m)) == Failures(l)
  {
    var l1 := Then(l, TransferDone(m, 1));
    assert Output(l1) == Output(l) && Settled(l1) == Settled(l);
    assert SentMsgs(l1) == SentMsgs(l) && Failures(l1) == Failures(l);
    var l2 := Then(l1, Dequeued(m, 1));
    assert Output(l2) == Output(l) && Settled(l2) == Settled(l) + [m];
    assert SentMsgs(l2) == SentMsgs(l) && Failures(l2) == Failures(l);
  }

  lemma EarlyLog()
    ensures Output(L3()) == FrameBits(FIRST) + FrameBits(FIRST) && Settled(L3()) == []
    ensures SentMsgs(L3()) == {FIRST, SECOND} && Failures(L3()) == 0
  {
    var l0 := Then(Then(Empty, Queued(FIRST, 1)), Started(0, true, true));
    assert SentMsgs(l0.before) == {FIRST} && Output(l0.before) == [] && Settled(l0.before) == [];
    assert SentMsgs(l0) == {FIRST} && Output(l0) == [] && Settled(l0) == [] && Failures(l0) == 0;
    AttemptedLog(l0, FIRST);
    hide Attempted, FrameBits;
    assert SentMsgs(L2()) == SentMsgs(L1()) + {SECOND};
    assert Output(L2()) == Output(L1()) && Settled(L2()) == Settled(L1());
    AttemptedLog(L2(), FIRST);
  }

  lemma LateLog()
    ensures Output(L5()) == Output(L3()) + FrameBits(SECOND)
    ensures Settled(L5()) == Settled(L3()) + [FIRST] + [SECOND] && SentMsgs(L5()) == SentMsgs(L3())
    ensures Failures(L5()) == Failures(L3())
  {
    hide Attempted, FrameBits, Acknowledged, L3;
    AcknowledgedLog(L3(), FIRST);
    var l := Then(Acknowledged(L3(), FIRST), Started(1, true, true));
    assert Output(l) == Output(L3()) && Settled(l) == Settled(L3()) + [FIRST] && SentMsgs(l) == SentMsgs(L3());
    assert Failures(l) == Failures(L3());
    AttemptedLog(l, SECOND);
    AcknowledgedLog(L4(), SECOND);
  }

  lemma SenderLog()
    ensures Settled(A5().log) == [FIRST, SECOND] && Failures(A5().log) == 0
    ensures Chars(ReceiverInputs()) <= Output(A5().log)
    ensures AllReceivable(Small(), A5().log)
  {
    EarlyLog();
    LateLog();
    ReceiverChars();
    Receivables();
    hide Output, Settled, SentMsgs, Failures, FrameBits, Chars, ReceiverInputs, L3, L5, Receivable;
  }

  lemma Receivables()
    ensures Receivable(Small().config, Content(Small(), FIRST)) && Receivable(Small().config, Content(Small(), SECOND))
  {
  }

  lemma ReceiverChars()
    ensures Chars(ReceiverInputs()) == FrameBits(FIRST) + FrameBits(FIRST)
  {
    FrameChars(1, FrameInputs(1, []));
    FrameChars(1, []);
    NoChars();
    hide Chars, FrameBits, FrameInputs;
  }

  lemma HeardLog(s: Link, data: seq<Byte>)
    ensures Received(Heard(s, data).log) == Received(s.log) + [data]
    ensures Output(Heard(s, data).log) == Output(s.log) + [ACK]
    ensures SentMsgs(Heard(s, data).log) == SentMsgs(s.log)
  {
    var l := Then(s.log, Push([ACK]));
    assert Received(l) == Received(s.log) && Output(l) == Output(s.log) + [ACK] && SentMsgs(l) == SentMsgs(s.log);
  }

  lemma ReceiverLog()
    ensures var b := Heard(Heard(Init(true, true, 0), [1]), [1]);
            && Received(b.log) == [[1], [1]] && Output(b.log) == [ACK, ACK] && SentMsgs(b.log) == {}
  {
    var b0 := Init(true, true, 0);
    assert Received(b0.log) == [] && Output(b0.log) == [] && SentMsgs(b0.log) == {};
    hide Heard, Init;
    HeardLog(b0, [1]);
    HeardLog(Heard(b0, [1]), [1]);
  }

  lemma SenderChars()
    ensures Chars(SenderInputs()) == [ACK, ACK]
  {
    hide Chars;
    var i6 := [Char(ACK)] + [];
    var i5 := [Char(ACK)] + i6;
    var i3 := [Input.Clock(300)] + ([Tick] + i5);
    CharsCons(DartRuns.Send(1, [1], true), [DartRuns.Send(1, [2], true)] + i3);
    CharsCons(DartRuns.Send(1, [2], true), i3);
    CharsCons(Input.Clock(300), [Tick] + i5);
    CharsCons(Tick, i5);
    CharsCons(Char(ACK), i6);
    CharsCons(Char(ACK), []);
    NoChars();
  }

  lemma NoChars()
    ensures Chars([]) == []
  {
  }

  /** Two links joined as in TwoLinks: both messages of the sender count as acknowledged, but the receiver has got
      the first one twice and the second one never. */
  lemma StaleAcknowledge()
    ensures var (u, init) := (Small(), Init(true, true, 0));
            && Joined(u, init, SenderInputs(), u, init, ReceiverInputs())
            && Settled(Run(u, init, SenderInputs()).log) == [FIRST, SECOND]
            && Failures(Run(u, init, SenderInputs()).log) == 0
            && Received(Run(u, init, ReceiverInputs()).log) == [[1], [1]]
            && !(Contents(u, [FIRST, SECOND]) <= [[1], [1]])
  {
    SenderRun();
    ReceiverRun();
    SenderLog();
    ReceiverLog();
    SenderChars();
    hide NoTimeout, Run, Sound, A5, Heard, SenderInputs, ReceiverInputs;
    hide Output, Received, Settled, SentMsgs, Failures, Chars, Init;
    assert Contents(Small(), [FIRST, SECOND])[1] == [2];
  }
}
