/**
 What TRANSFER_COMPLETE tells: that everything queued has been transferred and is finished. What of it the other side
 has received is decided by the ACK bytes read, whatever was reported for the single messages; three runs show
 that the reports tell neither the one nor the other.
 */
module DartReports {
  import opened Wrappers
  import opened DartFrame
  import opened Timers
  import opened DartProtocol
  import opened DartRuns
  import opened DartStreams
  import opened DartPair
  import opened DartLogs
  import opened DartReceipts
  import X = DartStaleAck

  /** The sends reported TRANSFER_DONE. */
  ghost function Done(l: Log): seq<nat> {
    match l
    case Empty => []
    case Then(b, TransferDone(m, _)) => Done(b) + [m.id]
    case Then(b, _) => Done(b)
  }

  /** The sends reported TRANSFER_FAILURE or MESSAGE_ABANDONED. */
  ghost function Lost(l: Log): seq<nat> {
    match l
    case Empty => []
    case Then(b, TransferFailure(m)) => Lost(b) + [m.id]
    case Then(b, MessageAbandoned(m)) => Lost(b) + [m.id]
    case Then(b, _) => Lost(b)
  }

  lemma {:induction false} FinishedIsDoneOrLost(l: Log)
    ensures multiset(Finished(l)) == multiset(Done(l)) + multiset(Lost(l))
  {
    if l.Then? {
      FinishedIsDoneOrLost(l.before);
    }
  }

  lemma {:induction false} ReportInHistory(u: Setup, l: Log, e: Event, l': Log)
    requires Supported(u.config) && Honest(l') && WellSent(u, l') && Extends(Then(l, e), l')
    ensures Honest(Then(l, e)) && WellSent(u, Then(l, e))
    decreases l'
  {
    hide FrameOf, Content;
    if l' != Then(l, e) {
      ReportInHistory(u, l, e, l'.before);
    }
  }

  /** "All messages successfully transferred", exactly then: when a joined link reports TRANSFER_COMPLETE, and ever
      after, each message queued by then has been transferred; the other side has for certain received all of them if
      and only if the first n transfers cover all that were made by then, n being the number of ACK bytes read. */
  lemma CompleteIffTransferred(uA: Setup, initA: Link, inA: seq<Input>, uB: Setup, initB: Link, inB: seq<Input>,
                               l: Log, e: Event)
    requires Joined(uA, initA, inA, uB, initB, inB) && e.TransferComplete?
    requires Extends(Then(l, e), Run(uA, initA, inA).log)
    ensures forall data :: data in Transfers(uA, l) <==> exists m :: m in SentMsgs(l) && data == Content(uA, m)
    ensures var (a, n) := (Run(uA, initA, inA), AcksRead(uA, initA, inA));
            && n <= |Transfers(uA, a.log)|
            && ((forall m :: m in SentMsgs(l) ==> SurelyReceived(uA, initA, inA, Content(uA, m))) <==>
                (forall data :: data in Transfers(uA, l) ==> data in Transfers(uA, a.log)[..n]))
  {
    FreshGenuine(uA, initA, inA);
    hide Run, NoTimeout, AllReceivable, Joined, AcksRead, SurelyReceived, Transfers, Genuine, FrameOf, Content;
    WellSentBefore(uA, Then(l, e), Run(uA, initA, inA).log);
    assert !AfterAttempt(l) && SentMsgs(l) <= SettledSet(l);
    hide WellSent;
    TransfersOfSent(uA, l);
    SurelyReceivedIff(uA, initA, inA, uB, initB, inB, []);
    forall m | m in SentMsgs(l)
      ensures SurelyReceived(uA, initA, inA, Content(uA, m)) <==>
              Content(uA, m) in Transfers(uA, Run(uA, initA, inA).log)[..AcksRead(uA, initA, inA)]
    {
      SurelyReceivedIff(uA, initA, inA, uB, initB, inB, Content(uA, m));
    }
  }

  /** When all messages sent have left the queue, the transfers are of these messages, of each at least one. */
  lemma TransfersOfSent(u: Setup, l: Log)
    requires Supported(u.config) && WellSent(u, l) && !AfterAttempt(l) && SentMsgs(l) <= SettledSet(l)
    ensures forall data :: data in Transfers(u, l) <==> exists m :: m in SentMsgs(l) && data == Content(u, m)
  {
    hide WellSent, Content, Transfers;
    forall data | data in Transfers(u, l) ensures exists m :: m in SentMsgs(l) && data == Content(u, m) {
      var m := TransfersAreSent(u, l, data);
    }
    forall m | m in SentMsgs(l) ensures Content(u, m) in Transfers(u, l) {
      SettledTransferred(u, l, m);
    }
  }

  /** Of the reports: when TRANSFER_COMPLETE is reported, each message queued so far has been reported finished once;
      all of them were reported done if and only if none was reported failed or abandoned. */
  lemma CompleteMeansReportedDoneIff(u: Setup, s: Link, inputs: seq<Input>, l: Log, e: Event)
    requires Supported(u.config) && Fresh(s) && e.TransferComplete?
    requires Extends(Then(l, e), Run(u, s, inputs).log)
    ensures multiset(Finished(l)) == AllIds(QueuedCount(l))
    ensures (forall id :: 0 <= id < QueuedCount(l) ==> id in Done(l)) <==> Lost(l) == []
  {
    RunReports(u, s, inputs);
    hide Run, Honest, WellSent, Extends, Fresh;
    ReportInHistory(u, l, e, Run(u, s, inputs).log);
    AtCompletion(u, l, e);
    hide Finished, Done, Lost, QueuedCount;
    FinishedIsDoneOrLost(l);
    AllDoneIff(Done(l), Lost(l), QueuedCount(l));
  }

  lemma RunReports(u: Setup, s: Link, inputs: seq<Input>)
    requires Supported(u.config) && Fresh(s)
    ensures Honest(Run(u, s, inputs).log) && WellSent(u, Run(u, s, inputs).log)
  {
    FreshGenuine(u, s, inputs);
    RunSound(u, s, inputs);
    hide Run;
  }

  lemma AtCompletion(u: Setup, l: Log, e: Event)
    requires Supported(u.config) && Honest(Then(l, e)) && WellSent(u, Then(l, e)) && e.TransferComplete?
    ensures multiset(Finished(l)) == AllIds(QueuedCount(l))
  {
    hide FrameOf;
  }

  lemma AllDoneIff(done: seq<nat>, lost: seq<nat>, n: nat)
    requires multiset(done) + multiset(lost) == AllIds(n)
    ensures (forall id :: 0 <= id < n ==> id in done) <==> lost == []
  {
    if lost == [] {
      forall id | 0 <= id < n ensures id in done {
        AllIdsCount(n, id);
        assert AllIds(n)[id] == multiset(done)[id];
      }
    } else {
      var id := lost[0];
      AllIdsCount(n, id);
      assert id in multiset(lost);
      assert multiset(done)[id] + multiset(lost)[id] == AllIds(n)[id];
      assert id < n && multiset(done)[id] == 0;
      assert id !in done;
    }
  }

  // ---------------------------------------------------------------- an example

  function Failed(l: Log): Log {
    Then(Then(Then(Then(l, TransferFailure(X.FIRST)), Dequeued(X.FIRST, 1)), Freed(0)), TransferComplete(0, 1))
  }

  function M1(): Log { X.Attempted(X.L1(), X.FIRST) }
  function M2(): Log { X.Attempted(M1(), X.FIRST) }

  function B0(now: nat): Link { X.Sender([X.FIRST], Some(1), Timer(0, ACK_TIMER), 0, now, 1, X.L1()) }
  function B1(now: nat): Link { X.Sender([X.FIRST], Some(1), Timer(300, ACK_TIMER), 1, now, 1, M1()) }
  function B2(now: nat): Link { X.Sender([X.FIRST], Some(1), Timer(600, ACK_TIMER), 2, now, 1, M2()) }
  function B3(): Link { X.Sender([], None, STOPPED, 3, 900, 1, Failed(M2())) }

  lemma Waits()
    ensures Step(X.Small(), B0(0), Input.Clock(300)) == B0(300)
    ensures Step(X.Small(), B1(300), Input.Clock(300)) == B1(600)
    ensures Step(X.Small(), B2(600), Input.Clock(300)) == B2(900)
  {
  }

  lemma Repeats()
    ensures Step(X.Small(), B0(300), Tick) == B1(300)
    ensures Step(X.Small(), B1(600), Tick) == B2(600)
  {
    hide FrameOf;
  }

  lemma GivesUp()
    ensures Step(X.Small(), B2(900), Tick) == B3()
  {
    hide FrameOf, TransferMsg;
    var s := B2(900).(ackTimer := STOPPED, txAttempts := 3);
    assert [X.FIRST][1..] == [];
    assert HandleTime(X.Small(), B2(900)).0 == RetryTransfer(X.Small(), B2(900).(ackTimer := STOPPED));
    var s1 := FinalizeTransfer(Note(s, TransferFailure(X.FIRST)));
    assert s1.lists == [[], [], []] && s1.transfering.None?;
    assert TriggerTransfer(X.Small(), s1) == (s1, Nothing);
  }

  function FailingInputs(): seq<Input> {
    [DartRuns.Send(1, [1], true)] + ([Input.Clock(300)] + ([Tick] + ([Input.Clock(300)] + ([Tick]
      + ([Input.Clock(300)] + ([Tick] + []))))))
  }

  /** A message that is never acknowledged: its failure is reported, and then completion. */
  lemma CompleteAfterFailure()
    ensures Fresh(Init(true, true, 0))
    ensures var l := Run(X.Small(), Init(true, true, 0), FailingInputs()).log;
            l.Then? && l.event.TransferComplete? && Lost(l.before) == [0] && Done(l.before) == []
  {
    var (u, s) := (X.Small(), Init(true, true, 0));
    InitSound(true, true, 0);
    X.SenderSends();
    Waits();
    Repeats();
    GivesUp();
    FailedLog();
    hide Sound, Step, X.A1, B0, B1, B2, B3, Run, Init, NoTimeout;
    assert X.A1() == B0(0) by { SameStart(); }
    var i7: seq<Input> := [Tick] + [];
    var i6 := [Input.Clock(300)] + i7;
    var i5 := [Tick] + i6;
    var i4 := [Input.Clock(300)] + i5;
    var i3 := [Tick] + i4;
    var i2 := [Input.Clock(300)] + i3;
    X.OneStep(u, s, DartRuns.Send(1, [1], true), i2);
    X.OneStep(u, B0(0), Input.Clock(300), i3);
    X.OneStep(u, B0(300), Tick, i4);
    X.OneStep(u, B1(300), Input.Clock(300), i5);
    X.OneStep(u, B1(600), Tick, i6);
    X.OneStep(u, B2(600), Input.Clock(300), i7);
    X.OneStep(u, B2(900), Tick, []);
    X.NoMore(B3());
  }

  lemma SameStart()
    ensures X.A1() == B0(0)
  {
  }

  lemma FailedLog()
    ensures var l := B3().log; l.Then? && l.event.TransferComplete? && Lost(l.before) == [0] && Done(l.before) == []
  {
    hide FrameOf;
    AttemptedReports(Then(Then(Empty, Queued(X.FIRST, 1)), Started(0, true, true)), X.FIRST);
    AttemptedReports(X.L1(), X.FIRST);
    AttemptedReports(M1(), X.FIRST);
    hide X.Attempted;
    var l := Then(M2(), TransferFailure(X.FIRST));
    assert Lost(l) == [0] && Done(l) == [];
    assert Lost(Then(l, Dequeued(X.FIRST, 1))) == [0] && Done(Then(l, Dequeued(X.FIRST, 1))) == [];
  }

  lemma AttemptedReports(l: Log, m: Msg)
    ensures Lost(X.Attempted(l, m)) == Lost(l) && Done(X.Attempted(l, m)) == Done(l)
  {
    hide FrameOf;
    assert Lost(Then(l, Attempt(m))) == Lost(l) && Done(Then(l, Attempt(m))) == Done(l);
  }

  // ---------------------------------------------------------------- done, but not received

  lemma AcknowledgedReports(l: Log, m: Msg)
    ensures Lost(X.Acknowledged(l, m)) == Lost(l) && Done(X.Acknowledged(l, m)) == Done(l) + [m.id]
  {
    var l1 := Then(l, TransferDone(m, 1));
    assert Lost(l1) == Lost(l) && Done(l1) == Done(l) + [m.id];
    assert Lost(Then(l1, Dequeued(m, 1))) == Lost(l) && Done(Then(l1, Dequeued(m, 1))) == Done(l) + [m.id];
  }

  lemma RepeatedLog()
    ensures Lost(X.L3()) == [] && Done(X.L3()) == []
  {
    var l0 := Then(Then(Empty, Queued(X.FIRST, 1)), Started(0, true, true));
    assert Lost(l0.before) == [] && Done(l0.before) == [] && Lost(l0) == [] && Done(l0) == [];
    AttemptedReports(l0, X.FIRST);
    AttemptedReports(X.L2(), X.FIRST);
    hide X.Attempted;
    assert Lost(X.L2()) == [] && Done(X.L2()) == [];
  }

  lemma DeceivedLog()
    ensures Lost(X.L5().before) == [] && Done(X.L5().before) == [0, 1]
  {
    RepeatedLog();
    hide X.Attempted, X.Acknowledged, X.L3;
    AcknowledgedReports(X.L3(), X.FIRST);
    var l := Then(X.Acknowledged(X.L3(), X.FIRST), Started(1, true, true));
    assert Lost(l) == [] && Done(l) == [0];
    AttemptedReports(l, X.SECOND);
    AcknowledgedReports(X.L4(), X.SECOND);
  }

  /** The run of DartStaleAck: completion is reported with both messages done and none lost, and the data of the
      second one have not been received. */
  lemma CompleteWithoutReceipt()
    ensures var (u, init) := (X.Small(), Init(true, true, 0));
            && Joined(u, init, X.SenderInputs(), u, init, X.ReceiverInputs())
            && var l := Run(u, init, X.SenderInputs()).log;
            && l.Then? && l.event.TransferComplete? && Lost(l.before) == [] && Done(l.before) == [0, 1]
            && [2] !in Received(Run(u, init, X.ReceiverInputs()).log)
  {
    X.StaleAcknowledge();
    X.SenderRun();
    DeceivedLog();
    hide Run, Joined, Lost, Done, Init, Received, X.SenderInputs, X.ReceiverInputs, X.Acknowledged, X.L4;
    assert X.A5().log == X.L5();
  }

  // ---------------------------------------------------------------- abandoned, but received

  const REQUEST := Msg(0, [64])

  function Q1(): Log { Then(Then(Empty, Queued(REQUEST, 1)), Started(0, true, true)) }
  function Q2(): Log { X.Attempted(Q1(), REQUEST) }
  function Q3(): Log { Then(Q2(), Dequeued(REQUEST, 1)) }
  function Q4(): Log { Then(Then(Then(Q3(), MessageAbandoned(REQUEST)), Freed(0)), TransferComplete(0, 1)) }

  function R1(): Link { X.Sender([REQUEST], Some(1), Timer(0, ACK_TIMER), 0, 0, 1, Q2()) }
  function R2(now: nat): Link {
    X.Sender([], None, STOPPED, 0, now, 1, Q3()).(pending := Some(REQUEST), responseTimer := Timer(0, RESPONSE_TIMER))
  }
  function R3(): Link { X.Sender([], None, STOPPED, 0, 3000, 1, Q4()).(closingTimer := Timer(3000, CLOSING_TIMER)) }

  lemma RequestStarts()
    ensures Step(X.Small(), Init(true, true, 0), DartRuns.Send(1, [64], true)) == R1()
  {
    hide FrameOf;
    var none: seq<Msg> := [];
    assert none + [REQUEST] == [REQUEST];
  }

  lemma RequestPends()
    ensures Timely(R1()) && Step(X.Small(), R1(), Char(ACK)) == R2(0)
    ensures Step(X.Small(), R2(0), Input.Clock(3000)) == R2(3000)
  {
    hide FrameOf, X.Attempted;
    var none: seq<Msg> := [];
    assert [REQUEST][1..] == none;
  }

  lemma RequestAbandoned()
    ensures Step(X.Small(), R2(3000), Tick) == R3()
  {
    hide FrameOf, X.Attempted, TransferMsg;
    var s := Note(Note(R2(3000), MessageAbandoned(REQUEST)), Freed(0)).(responseTimer := STOPPED, pending := None);
    assert TriggerTransfer(X.Small(), s) == (s, Nothing);
    assert TriggerNext(X.Small(), s) == R3().(closingTimer := STOPPED);
    assert AbandonRequest(X.Small(), R2(3000)) == R3().(closingTimer := STOPPED);
  }

  function RequestInputs(): seq<Input> {
    [DartRuns.Send(1, [64], true)] + ([Char(ACK)] + ([Input.Clock(3000)] + ([Tick] + [])))
  }

  lemma RequestRun()
    ensures Fresh(Init(true, true, 0)) && NoTimeout(X.Small(), Init(true, true, 0), RequestInputs())
    ensures Run(X.Small(), Init(true, true, 0), RequestInputs()) == R3() && Chars(RequestInputs()) == [ACK]
  {
    var (u, s) := (X.Small(), Init(true, true, 0));
    InitSound(true, true, 0);
    RequestStarts();
    RequestPends();
    RequestAbandoned();
    hide Sound, Step, Timely, R1, R2, R3, Init, NoTimeout, Run, Chars;
    var i4: seq<Input> := [Tick] + [];
    var i3 := [Input.Clock(3000)] + i4;
    var i2 := [Char(ACK)] + i3;
    X.OneStep(u, s, DartRuns.Send(1, [64], true), i2);
    X.OneStep(u, R1(), Char(ACK), i3);
    X.OneStep(u, R2(0), Input.Clock(3000), i4);
    X.OneStep(u, R2(3000), Tick, []);
    X.NoMore(R3());
    X.CharsCons(DartRuns.Send(1, [64], true), i2);
    X.CharsCons(Char(ACK), i3);
    X.CharsCons(Input.Clock(3000), i4);
    X.CharsCons(Tick, []);
    X.NoChars();
  }

  lemma RequestStart()
    ensures Lost(Q1()) == [] && Done(Q1()) == [] && SentMsgs(Q1()) == {REQUEST} && Output(Q1()) == []
    ensures Transfers(X.Small(), Q1()) == [] && Extends(Then(Q1(), Attempt(REQUEST)), Q2())
  {
    hide FrameOf;
    var l0 := Then(Empty, Queued(REQUEST, 1));
    assert Lost(l0) == [] && Done(l0) == [] && SentMsgs(l0) == {REQUEST} && Output(l0) == [];
    assert Transfers(X.Small(), l0) == [];
  }

  lemma RequestLog()
    ensures var l := R3().log; l.Then? && l.event.TransferComplete? && Lost(l.before) == [0] && Done(l.before) == []
    ensures SentMsgs(R3().log) == {REQUEST} && Output(R3().log) == X.FrameBits(REQUEST)
    ensures Extends(Then(Q1(), Attempt(REQUEST)), R3().log) && Transfers(X.Small(), Q1()) == []
  {
    RequestStart();
    AttemptedReports(Q1(), REQUEST);
    X.AttemptedLog(Q1(), REQUEST);
    hide X.Attempted, X.FrameBits, Q1, Transfers;
    var start := Then(Q1(), Attempt(REQUEST));
    assert Lost(Q3()) == [] && Done(Q3()) == [] && SentMsgs(Q3()) == {REQUEST} && Output(Q3()) == Output(Q2());
    assert Extends(start, Q3());
    hide Q2;
    var l := Then(Q3(), MessageAbandoned(REQUEST));
    assert Lost(l) == [0] && Done(l) == [] && SentMsgs(l) == {REQUEST} && Output(l) == Output(Q3());
    assert Extends(start, l);
    var l1 := Then(l, Freed(0));
    assert Lost(l1) == [0] && Done(l1) == [] && SentMsgs(l1) == {REQUEST} && Output(l1) == Output(Q3());
    assert Extends(start, l1);
  }

  lemma RequestArrives()
    ensures var (b, inputs) := (Init(true, true, 0), X.FrameInputs(64, []));
            && Sound(b) && NoTimeout(X.Small(), b, inputs) && Chars(inputs) == X.FrameBits(REQUEST)
            && Run(X.Small(), b, inputs) == X.Heard(b, [64])
            && Output(X.Heard(b, [64]).log) == [ACK] && SentMsgs(X.Heard(b, [64]).log) == {}
            && |Received(X.Heard(b, [64]).log)| == 1
  {
    var b := Init(true, true, 0);
    InitSound(true, true, 0);
    assert Output(b.log) == [] && SentMsgs(b.log) == {} && Received(b.log) == [] && X.Resting(b) && Shaped(b);
    X.FrameChars(64, []);
    X.NoChars();
    assert X.FrameBits(Msg(0, [64])) + [] == X.FrameBits(REQUEST);
    X.HeardLog(b, [64]);
    hide Sound, Init, X.Heard, X.Resting, X.FrameInputs, NoTimeout, Run, Chars, X.FrameBits;
    X.FrameArrives(b, 64, []);
    X.NoMore(X.Heard(b, [64]));
  }

  lemma RequestJoined()
    ensures var (u, init) := (X.Small(), Init(true, true, 0));
            Joined(u, init, RequestInputs(), u, init, X.FrameInputs(64, []))
  {
    RequestRun();
    RequestLog();
    RequestArrives();
    RequestReceivable(R3().log);
    RequestReceivable(X.Heard(Init(true, true, 0), [64]).log);
    hide *;
    BothJoined(X.Small(), Init(true, true, 0), RequestInputs(), X.FrameInputs(64, []));
  }

  lemma BothJoined(u: Setup, init: Link, inA: seq<Input>, inB: seq<Input>)
    requires Supported(u.config) && Fresh(init) && Sound(init) && NoTimeout(u, init, inA) && NoTimeout(u, init, inB)
    requires AllReceivable(u, Run(u, init, inA).log) && AllReceivable(u, Run(u, init, inB).log)
    requires Chars(inB) <= Output(Run(u, init, inA).log) && Chars(inA) <= Output(Run(u, init, inB).log)
    ensures Joined(u, init, inA, u, init, inB)
  {
    hide Run, NoTimeout, Sound, Chars, Output, AllReceivable;
  }

  lemma RequestReceivable(l: Log)
    requires SentMsgs(l) <= {REQUEST}
    ensures Supported(X.Small().config) && AllReceivable(X.Small(), l)
  {
    assert Receivable(X.Small().config, Content(X.Small(), REQUEST));
    hide Receivable, SentMsgs, Content;
  }

  lemma RequestAcknowledged()
    ensures Sound(Init(true, true, 0)) && AcksRead(X.Small(), Init(true, true, 0), RequestInputs()) == 1
  {
    var (u, init) := (X.Small(), Init(true, true, 0));
    RequestRun();
    RequestArrives();
    FreshGenuine(u, init, X.FrameInputs(64, []));
    var l := X.Heard(init, [64]).log;
    assert AllReceivable(u, l);
    hide Run, NoTimeout, Sound, Init, R3, Chars, Output, SentMsgs, RequestInputs, X.FrameInputs, X.FrameBits, Genuine;
    hide AllReceivable, X.Heard, Received, AckPushes, WellSent, AcksRead;
    AcksReadAreReceipts(u, init, RequestInputs(), u, l);
  }

  /** The reports err the other way too: a request that is received and acknowledged but never answered is reported
      abandoned; completion follows, and its data have for certain been received. */
  lemma AbandonedButReceived()
    ensures var (u, init) := (X.Small(), Init(true, true, 0));
            && Joined(u, init, RequestInputs(), u, init, X.FrameInputs(64, []))
            && var l := Run(u, init, RequestInputs()).log;
            && l.Then? && l.event.TransferComplete? && Lost(l.before) == [0] && Done(l.before) == []
            && SurelyReceived(u, init, RequestInputs(), [64])
  {
    var (u, init) := (X.Small(), Init(true, true, 0));
    RequestRun();
    RequestLog();
    RequestJoined();
    RequestAcknowledged();
    assert Content(u, REQUEST) == [64];
    hide *;
    SenderCanTell(u, init, RequestInputs(), u, init, X.FrameInputs(64, []), Q1(), REQUEST);
  }
}
