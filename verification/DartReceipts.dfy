/**
 What a link can conclude from the ACK bytes it reads. They carry no number, so the n-th of them proves that n
 frames have arrived, and no more: the data the other side has certainly received are those of the first n
 transfers.
 */
module DartReceipts {
  import opened Wrappers
  import opened DartFrame
  import opened Timers
  import opened DartProtocol
  import opened DartRuns
  import opened DartStreams
  import opened DartPair
  import opened DartLogs

  // ---------------------------------------------------------------- growing histories

  lemma {:induction false} HistoryKept(u: Setup, l: Log, l': Log)
    requires Extends(l, l')
    ensures Output(l) <= Output(l') && SentMsgs(l) <= SentMsgs(l')
    ensures Transfers(u, l) <= Transfers(u, l') && Received(l) <= Received(l')
    decreases l'
  {
    if l' != l {
      HistoryKept(u, l, l'.before);
    }
  }

  // ---------------------------------------------------------------- which inputs settle a message

  lemma TriggerNextSettled(u: Setup, s: Link)
    requires Supported(u.config) && Shaped(s)
    ensures Settled(TriggerNext(u, s).log) == Settled(s.log)
  {
    hide FrameOf, Content;
    if s.transfering.None? && RaiseWrk(s).Some? {
      var s1 := RaiseWrk(s).value;
      if s1.rdy && FindNext(s1).Some? {
        var m := s1.lists[FindNext(s1).value][0];
        var l := Then(Then(s.log, Started(m.id, s1.wrk, s1.rdy)), Attempt(m));
        assert Settled(l.before) == Settled(s.log) && Settled(l) == Settled(s.log);
      }
    }
  }

  /** An ACK read with a message in flight, on an open line, takes that message for acknowledged. */
  lemma AckSettles(u: Setup, s: Link)
    requires Supported(u.config) && Shaped(s) && ReadsAck(s, Char(ACK)) && s.wrk && s.transfering.Some?
    ensures Settled(HandleReceivedChar(u, s, ACK).log) == Settled(s.log) + [InFlight(s)]
  {
    hide TriggerNext;
    var s1 := Store(s, ACK);
    var s2 := s1.(ackTimer := STOPPED);
    var m := InFlight(s);
    assert Settled(s1.log) == Settled(s.log);
    if IsRequest(m.Type()) {
      var s3 := Dequeue(s2).(responseTimer := Timer(s.now, RESPONSE_TIMER), pending := Some(m));
      TriggerNextSettled(u, s3);
      assert Settled(s3.log) == Settled(s.log) + [m];
    } else {
      var s3 := Note(s2, TransferDone(m, |m.data|));
      assert Settled(s3.log) == Settled(s.log) && Settled(Dequeue(s3).log) == Settled(s.log) + [m];
      TriggerNextSettled(u, FinalizeTransfer(s3));
      assert Settled(FinalizeTransfer(s3).log) == Settled(s.log) + [m];
    }
  }

  /** Nothing else does; and no input delivers more than one message. */
  lemma OnlyAckSettles(u: Setup, s: Link, i: Input)
    requires Supported(u.config) && Shaped(s)
    ensures Acks(Step(u, s, i).log) ==
            Acks(s.log) + if ReadsAck(s, i) && s.wrk && s.transfering.Some? then 1 else 0
    ensures |Received(Step(u, s, i).log)| <= |Received(s.log)| + 1
  {
    if i.Char? {
      CharSettles(u, s, i.ch);
    } else {
      hide HandleTime, SendMsg;
      OtherStepQuiet(u, s, i);
    }
  }

  lemma CharSettles(u: Setup, s: Link, ch: Byte)
    requires Supported(u.config) && Shaped(s)
    ensures Acks(HandleReceivedChar(u, s, ch).log) ==
            Acks(s.log) + if ReadsAck(s, Char(ch)) && s.wrk && s.transfering.Some? then 1 else 0
    ensures |Received(HandleReceivedChar(u, s, ch).log)| <= |Received(s.log)| + 1
  {
    hide HandleFrame, AcknowledgeMsg, RetryTransfer, TriggerTransfer, GetLen;
    var s1 := Store(s, ch);
    assert Acks(s1.log) == Acks(s.log) && Received(s1.log) == Received(s.log);
    if |s1.rx| == 1 {
      AcknowledgeMsgQuiet(u, s1);
      RetryTransferQuiet(u, s1);
      TriggerTransferQuiet(u, s1);
    } else if HeaderBytes(u.config) <= |s1.rx| {
      var n := GetLen(u.config, s1.rx);
      assert Acks(Then(s1.log, TransferCorrupted)) == Acks(s1.log);
      if FrameBytes(u.config, n) <= |s1.rx| {
        FrameSettlesNone(u, s1, n);
      }
    }
  }

  lemma FrameSettlesNone(u: Setup, s: Link, n: nat)
    requires Supported(u.config) && Shaped(s) && FrameBytes(u.config, n) <= |s.rx|
    ensures Acks(HandleFrame(u, s, n).log) == Acks(s.log)
    ensures |Received(HandleFrame(u, s, n).log)| <= |Received(s.log)| + 1
  {
    hide CheckBytes, FinalizeRequest;
    var data := GetData(u.config, s.rx, n);
    var s1 := Note(s, Push([ACK]));
    var s2 := Note(s1, MessageReceived(data));
    assert Acks(s1.log) == Acks(s.log) && Acks(s2.log) == Acks(s.log);
    assert Received(s1.log) == Received(s.log) && Received(s2.log) == Received(s.log) + [data];
    var bad := Then(s.log, Push([BAD]));
    assert Acks(bad) == Acks(s.log) && Acks(Then(bad, TransferCorrupted)) == Acks(s.log);
    assert Received(bad) == Received(s.log);
    if s2.pending.Some? {
      FinalizeRequestQuiet(u, s2, TransferDone(s2.pending.value, |data|));
    }
  }

  // ---------------------------------------------------------------- at least n receipts

  /** A link has read at most as many ACK bytes as the other has received messages. */
  lemma AcksReadAreReceipts(uA: Setup, initA: Link, inA: seq<Input>, uB: Setup, l: Log)
    requires Supported(uB.config) && uB.config == uA.config && WellSent(uB, l) && AllReceivable(uB, l)
    requires Sound(initA) && initA.rx == [] && NoTimeout(uA, initA, inA) && Chars(inA) <= Output(l)
    ensures AcksRead(uA, initA, inA) <= AckPushes(l)
    ensures Chars(inA) == Output(l) ==> AcksRead(uA, initA, inA) == AckPushes(l)
  {
    hide Sound, Run, NoTimeout, AllReceivable, WellSent, Fits, Wire, AcksRead;
    OutputIsStream(uB, l);
    AckItems(uB, l);
    StreamDeliveredSoFar(uA, initA, inA, Items(uB, l));
    if Chars(inA) == Output(l) {
      StreamDelivered(uA, initA, inA, Items(uB, l));
    }
  }

  // ---------------------------------------------------------------- and possibly no more

  lemma {:induction false} CharsAppend(a: seq<Input>, b: seq<Input>)
    ensures Chars(a + b) == Chars(a) + Chars(b)
    decreases |a|
  {
    if a == [] {
      assert a + b == b;
    } else {
      assert (a + b)[1..] == a[1..] + b;
      CharsAppend(a[1..], b);
    }
  }

  /** Some first part of the inputs has exactly these first bytes. */
  lemma {:induction false} CutAtBytes(inputs: seq<Input>, bytes: seq<Byte>) returns (p: nat)
    requires bytes <= Chars(inputs)
    ensures p <= |inputs| && Chars(inputs[..p]) == bytes
    decreases |inputs|
  {
    if bytes == [] {
      p := 0;
    } else {
      var head, rest := inputs[0], inputs[1..];
      p := CutAtBytes(rest, if head.Char? then bytes[1..] else bytes);
      assert inputs[..p + 1][1..] == rest[..p];
      p := p + 1;
    }
  }

  /** The first moment of a run at which all these bytes have been sent. */
  lemma {:induction false} ShortestCover(u: Setup, s: Link, inputs: seq<Input>, bytes: seq<Byte>) returns (k: nat)
    requires Supported(u.config) && Sound(s) && Output(s.log) == [] && bytes != []
    requires bytes <= Output(Run(u, s, inputs).log)
    ensures 0 < k <= |inputs|
    ensures bytes <= Output(Run(u, s, inputs[..k]).log) && !(bytes <= Output(Run(u, s, inputs[..k - 1]).log))
    decreases |inputs|
  {
    hide Sound, Step;
    assert Run(u, s, []) == s;
    assert inputs != [];
    var shorter := inputs[..|inputs| - 1];
    hide Run;
    if bytes <= Output(Run(u, s, shorter).log) {
      k := ShortestCover(u, s, shorter, bytes);
      assert shorter[..k] == inputs[..k] && shorter[..k - 1] == inputs[..k - 1];
    } else {
      k := |inputs|;
      assert inputs[..k] == inputs;
    }
  }

  /** The last step of a run. */
  lemma LastStep(u: Setup, s: Link, before: seq<Input>, i: Input)
    requires Supported(u.config) && Sound(s)
    ensures var s1 := Run(u, s, before);
            && Sound(s1) && Shaped(s1) && Run(u, s, before + [i]) == Step(u, s1, i)
            && AcksRead(u, s, before + [i]) == AcksRead(u, s, before) + (if ReadsAck(s1, i) then 1 else 0)
            && (NoTimeout(u, s, before + [i]) ==> NoTimeout(u, s, before))
            && Extends(s1.log, Run(u, s, before + [i]).log)
            && |Received(Run(u, s, before + [i]).log)| <= |Received(s1.log)| + 1
  {
    hide Sound, Step, ReadsAck, Timely, Extends;
    RunSound(u, s, before);
    RunAppend(u, s, before, [i]);
    var s1 := Run(u, s, before);
    SoundParts(s1);
    StepSound(u, s1, i);
    assert [i][1..] == [];
    assert Run(u, s1, [i]) == Step(u, s1, i);
    assert AcksRead(u, Step(u, s1, i), []) == 0;
    StepGrows(u, s1, i);
    OnlyAckSettles(u, s1, i);
  }

  /** Of what B has sent and A has read, each ACK byte was read as one. */
  lemma AcksSentAreRead(uA: Setup, initA: Link, inA: seq<Input>, uB: Setup, l: Log)
    requires Supported(uB.config) && uB.config == uA.config && WellSent(uB, l) && AllReceivable(uB, l)
    requires Sound(initA) && initA.rx == [] && NoTimeout(uA, initA, inA) && Output(l) <= Chars(inA)
    ensures AckPushes(l) <= AcksRead(uA, initA, inA)
  {
    hide Sound, NoTimeout, AllReceivable, WellSent, AcksRead, Output;
    var p := CutAtBytes(inA, Output(l));
    assert inA == inA[..p] + inA[p..];
    RunAppend(uA, initA, inA[..p], inA[p..]);
    AcksReadAreReceipts(uA, initA, inA[..p], uB, l);
  }

  lemma JoinedPrefix(uA: Setup, initA: Link, inA: seq<Input>, uB: Setup, initB: Link, inB: seq<Input>, k: nat)
    requires Joined(uA, initA, inA, uB, initB, inB) && k <= |inB|
    requires Chars(inA) <= Output(Run(uB, initB, inB[..k]).log)
    ensures Joined(uA, initA, inA, uB, initB, inB[..k])
  {
    hide Run, NoTimeout, Output, Sound, AllReceivable;
    assert inB == inB[..k] + inB[k..];
    RunAppend(uB, initB, inB[..k], inB[k..]);
    CharsAppend(inB[..k], inB[k..]);
    StillReceivable(uB, initB, inB, k);
  }

  /** Cut B's run at the first moment at which all bytes that A has read had been sent: A cannot tell the rest from
      nothing, and B had received exactly as many messages as A has read ACK bytes. */
  lemma CutReceives(uA: Setup, initA: Link, inA: seq<Input>, uB: Setup, initB: Link, inB: seq<Input>) returns (k: nat)
    requires Joined(uA, initA, inA, uB, initB, inB)
    ensures k <= |inB| && Joined(uA, initA, inA, uB, initB, inB[..k])
    ensures |Received(Run(uB, initB, inB[..k]).log)| == AcksRead(uA, initA, inA)
  {
    FreshGenuine(uA, initA, []);
    FreshGenuine(uB, initB, []);
    NothingYet(uB, initB);
    hide Run, NoTimeout, Output, Sound, AllReceivable, WellSent, AckPushes, Genuine, AcksRead;
    if Chars(inA) == [] {
      k := 0;
      JoinedPrefix(uA, initA, inA, uB, initB, inB, 0);
      assert inB[..0] == [];
    } else {
      k := ShortestCover(uB, initB, inB, Chars(inA));
      JoinedPrefix(uA, initA, inA, uB, initB, inB, k);
      AtMost(uA, initA, inA, uB, initB, inB, k - 1);
    }
    JoinedReceipts(uA, initA, inA, uB, initB, inB[..k]);
  }

  lemma NothingYet(u: Setup, s: Link)
    requires Supported(u.config) && Fresh(s)
    ensures Run(u, s, []) == s && Output(s.log) == [] && Received(s.log) == []
  {
  }

  /** What being joined says about receipts. */
  lemma JoinedReceipts(uA: Setup, initA: Link, inA: seq<Input>, uB: Setup, initB: Link, inB: seq<Input>)
    requires Joined(uA, initA, inA, uB, initB, inB)
    ensures Supported(uA.config) && Sound(initA) && Supported(uB.config) && Sound(initB)
    ensures Received(Run(uB, initB, inB).log) <= Transfers(uA, Run(uA, initA, inA).log)
    ensures AcksRead(uA, initA, inA) <= |Received(Run(uB, initB, inB).log)|
  {
    FreshGenuine(uA, initA, []);
    FreshGenuine(uB, initB, inB);
    hide Run, NoTimeout, Output, Sound, AllReceivable, WellSent, AckPushes, Genuine, AcksRead;
    TwoLinks(uA, initA, inA, uB, initB, inB);
    AcksReadAreReceipts(uA, initA, inA, uB, Run(uB, initB, inB).log);
  }

  /** A step that receives a message has acknowledged it first. */
  lemma AckBeforeReceipt(u: Setup, s: Link, i: Input)
    requires Supported(u.config) && Shaped(s) && |Received(s.log)| < |Received(Step(u, s, i).log)|
    ensures Extends(Then(s.log, Push([ACK])), Step(u, s, i).log)
  {
    hide Extends, HandleReceivedChar, HandleTime, SendMsg;
    if i.Char? {
      AckBeforeChar(u, s, i.ch);
    } else {
      OtherStepQuiet(u, s, i);
    }
  }

  lemma AckBeforeChar(u: Setup, s: Link, ch: Byte)
    requires Supported(u.config) && Shaped(s) && |Received(s.log)| < |Received(HandleReceivedChar(u, s, ch).log)|
    ensures Extends(Then(s.log, Push([ACK])), HandleReceivedChar(u, s, ch).log)
  {
    hide Extends, HandleFrame, AcknowledgeMsg, RetryTransfer, TriggerTransfer, GetLen;
    var s1 := Store(s, ch);
    assert Received(s1.log) == Received(s.log);
    AcknowledgeMsgQuiet(u, s1);
    RetryTransferQuiet(u, s1);
    TriggerTransferQuiet(u, s1);
    assert Received(Then(s1.log, TransferCorrupted)) == Received(s1.log);
    if HeaderBytes(u.config) <= |s1.rx| {
      var n := GetLen(u.config, s1.rx);
      if FrameBytes(u.config, n) <= |s1.rx| {
        AckBeforeFrame(u, s1, n);
      }
    }
  }

  lemma AckBeforeFrame(u: Setup, s: Link, n: nat)
    requires Supported(u.config) && Shaped(s) && FrameBytes(u.config, n) <= |s.rx|
    ensures Received(HandleFrame(u, s, n).log) == Received(s.log) ||
            Extends(Then(s.log, Push([ACK])), HandleFrame(u, s, n).log)
  {
    hide Extends, HandleReceivedMsg, CheckBytes;
    assert Received(Then(s.log, Push([BAD]))) == Received(s.log);
    HandleReceivedMsgGrows(u, Note(s, Push([ACK])), GetData(u.config, s.rx, n), s.rx[HeaderBytes(u.config)]);
  }

  /** At the step at which B has sent all that A has read, and not before. */
  lemma AtMost(uA: Setup, initA: Link, inA: seq<Input>, uB: Setup, initB: Link, inB: seq<Input>, k: nat)
    requires Joined(uA, initA, inA, uB, initB, inB) && k < |inB|
    requires Chars(inA) <= Output(Run(uB, initB, inB[..k + 1]).log)
    requires !(Chars(inA) <= Output(Run(uB, initB, inB[..k]).log))
    ensures |Received(Run(uB, initB, inB[..k + 1]).log)| <= AcksRead(uA, initA, inA)
  {
    FreshGenuine(uA, initA, []);
    FreshGenuine(uB, initB, inB[..k]);
    hide Run, NoTimeout, Output, Sound, WellSent, AckPushes, Genuine, AcksRead, Extends, AllReceivable;
    var s := Run(uB, initB, inB[..k]);
    var l, l' := s.log, Run(uB, initB, inB[..k + 1]).log;
    assert inB[..k + 1] == inB[..k] + [inB[k]];
    LastStep(uB, initB, inB[..k], inB[k]);
    HistoryKept(uB, l, l');
    hide Transfers, Received, SentMsgs;
    StillReceivable(uB, initB, inB, k);
    if |Received(l)| < |Received(l')| {
      AckBeforeReceipt(uB, s, inB[k]);
      AckSent(uB, l);
      HistoryKept(uB, Then(l, Push([ACK])), l');
      AcksSentAreRead(uA, initA, inA, uB, Then(l, Push([ACK])));
    } else {
      AcksSentAreRead(uA, initA, inA, uB, l);
    }
  }

  lemma AckSent(u: Setup, l: Log)
    requires Supported(u.config) && WellSent(u, l) && !AfterAttempt(l)
    ensures var l1 := Then(l, Push([ACK]));
            && WellSent(u, l1) && Output(l1) == Output(l) + [ACK] && AckPushes(l1) == AckPushes(l) + 1
            && (AllReceivable(u, l) ==> AllReceivable(u, l1))
  {
    assert SentMsgs(Then(l, Push([ACK]))) == SentMsgs(l);
  }

  lemma StillReceivable(u: Setup, s: Link, inputs: seq<Input>, k: nat)
    requires Supported(u.config) && Sound(s) && k <= |inputs| && AllReceivable(u, Run(u, s, inputs).log)
    ensures AllReceivable(u, Run(u, s, inputs[..k]).log)
  {
    hide Run, Sound, Extends;
    assert inputs == inputs[..k] + inputs[k..];
    RunAppend(u, s, inputs[..k], inputs[k..]);
    RunGrows(u, Run(u, s, inputs[..k]), inputs[k..]);
    HistoryKept(u, Run(u, s, inputs[..k]).log, Run(u, s, inputs).log);
  }

  // ---------------------------------------------------------------- exactly

  /** Whatever link is at the other end, it has received these data. */
  ghost predicate SurelyReceived(uA: Setup, initA: Link, inA: seq<Input>, data: seq<Byte>) {
    forall uB, initB, inB :: Joined(uA, initA, inA, uB, initB, inB) ==> data in Received(Run(uB, initB, inB).log)
  }

  /** Once A has read n ACK bytes between frames (those dropped with nothing in flight counted), the other side has
      for certain received the data of A's first n transfers, and for certain nothing else. */
  lemma SurelyReceivedIff(uA: Setup, initA: Link, inA: seq<Input>, uB: Setup, initB: Link, inB: seq<Input>,
                          data: seq<Byte>)
    requires Joined(uA, initA, inA, uB, initB, inB)
    ensures var (a, n) := (Run(uA, initA, inA), AcksRead(uA, initA, inA));
            && n <= |Transfers(uA, a.log)|
            && (SurelyReceived(uA, initA, inA, data) <==> data in Transfers(uA, a.log)[..n])
  {
    hide Run, NoTimeout, AllReceivable, Joined, AcksRead;
    JoinedReceipts(uA, initA, inA, uB, initB, inB);
    var n := AcksRead(uA, initA, inA);
    var k := CutReceives(uA, initA, inA, uB, initB, inB);
    JoinedReceipts(uA, initA, inA, uB, initB, inB[..k]);
    if data in Transfers(uA, Run(uA, initA, inA).log)[..n] {
      forall uB', initB', inB' | Joined(uA, initA, inA, uB', initB', inB')
        ensures data in (JoinedReceipts(uA, initA, inA, uB', initB', inB'); Received(Run(uB', initB', inB').log))
      {
        JoinedReceipts(uA, initA, inA, uB', initB', inB');
      }
    } else {
      assert !(data in Received(Run(uB, initB, inB[..k]).log));
    }
  }

  /** The moment an acknowledge settles message m: the other side has for certain received m's data if and only if
      these are among the data of the first n transfers, the acknowledge being the n-th ACK byte read. */
  lemma AcknowledgedIffTransferred(uA: Setup, initA: Link, before: seq<Input>, uB: Setup, initB: Link, inB: seq<Input>)
    requires Joined(uA, initA, before + [Char(ACK)], uB, initB, inB)
    requires var s := Run(uA, initA, before); ReadsAck(s, Char(ACK)) && s.wrk && s.transfering.Some?
    ensures Shaped(Run(uA, initA, before))
    ensures var (inA, s) := (before + [Char(ACK)], Run(uA, initA, before));
            var (a, m, n) := (Run(uA, initA, inA), InFlight(s), AcksRead(uA, initA, before) + 1);
            && Settled(a.log) == Settled(s.log) + [m]
            && n <= |Transfers(uA, a.log)|
            && (SurelyReceived(uA, initA, inA, Content(uA, m)) <==> Content(uA, m) in Transfers(uA, a.log)[..n])
  {
    hide Run, NoTimeout, AllReceivable, Joined, AcksRead, ReadsAck, SurelyReceived;
    JoinedReceipts(uA, initA, before + [Char(ACK)], uB, initB, inB);
    var s := Run(uA, initA, before);
    RunSound(uA, initA, before);
    SoundParts(s);
    AckSettles(uA, s);
    LastStep(uA, initA, before, Char(ACK));
    SurelyReceivedIff(uA, initA, before + [Char(ACK)], uB, initB, inB, Content(uA, InFlight(s)));
  }

  /** The moment message m is reported TRANSFER_DONE, which is for a request the moment its response is complete, and
      ever after: m has been transferred, and the other side has for certain received m's data if and only if these
      are among the data of the first n transfers, n being the number of ACK bytes read. */
  lemma DoneIffTransferred(uA: Setup, initA: Link, inA: seq<Input>, uB: Setup, initB: Link, inB: seq<Input>,
                           l: Log, m: Msg, len: nat)
    requires Joined(uA, initA, inA, uB, initB, inB)
    requires Extends(Then(l, TransferDone(m, len)), Run(uA, initA, inA).log)
    ensures Content(uA, m) in Transfers(uA, l)
    ensures var (a, n) := (Run(uA, initA, inA), AcksRead(uA, initA, inA));
            && n <= |Transfers(uA, a.log)|
            && (SurelyReceived(uA, initA, inA, Content(uA, m)) <==> Content(uA, m) in Transfers(uA, a.log)[..n])
  {
    SurelyReceivedIff(uA, initA, inA, uB, initB, inB, Content(uA, m));
    FreshGenuine(uA, initA, inA);
    hide Run, NoTimeout, AllReceivable, Joined, AcksRead, SurelyReceived, Transfers, Genuine, FrameOf, Content;
    WellSentBefore(uA, Then(l, TransferDone(m, len)), Run(uA, initA, inA).log);
    SettledTransferred(uA, l, m);
  }

  lemma {:induction false} WellSentBefore(u: Setup, l: Log, l': Log)
    requires Supported(u.config) && WellSent(u, l') && Extends(l, l')
    ensures WellSent(u, l)
    decreases l'
  {
    hide FrameOf, Content;
    if l' != l {
      WellSentBefore(u, l, l'.before);
    }
  }

  /** The sender can tell: when more ACK bytes were read than transfers made before the message's first attempt, it
      has been received; and only then, unless the same data were transferred before. */
  lemma SenderCanTell(uA: Setup, initA: Link, inA: seq<Input>, uB: Setup, initB: Link, inB: seq<Input>, l: Log, m: Msg)
    requires Joined(uA, initA, inA, uB, initB, inB)
    requires Extends(Then(l, Attempt(m)), Run(uA, initA, inA).log)
    ensures var enough := |Transfers(uA, l)| < AcksRead(uA, initA, inA);
            var received := SurelyReceived(uA, initA, inA, Content(uA, m));
            (enough ==> received) && (Content(uA, m) !in Transfers(uA, l) ==> (received <==> enough))
  {
    FreshGenuine(uA, initA, inA);
    hide Run, NoTimeout, AllReceivable, Joined, AcksRead, ReadsAck, SurelyReceived, Genuine, Sound;
    SurelyReceivedIff(uA, initA, inA, uB, initB, inB, Content(uA, m));
    AttemptIsTransfer(uA, l, m, Run(uA, initA, inA).log);
    var l1 := Then(l, Attempt(m));
    assert Transfers(uA, l1) == Transfers(uA, l);
    HistoryKept(uA, l1, Run(uA, initA, inA).log);
  }

  /** Where the transfer of an attempt stands in the list of transfers. */
  lemma {:induction false} AttemptIsTransfer(u: Setup, l: Log, m: Msg, l': Log)
    requires Supported(u.config) && WellSent(u, l') && !AfterAttempt(l') && Extends(Then(l, Attempt(m)), l')
    ensures |Transfers(u, l)| < |Transfers(u, l')| && Transfers(u, l')[|Transfers(u, l)|] == Content(u, m)
    decreases l'
  {
    hide FrameOf, Content;
    var start := Then(l, Attempt(m));
    assert l' != start;
    if l'.before == start {
      assert Transfers(u, l') == Transfers(u, l) + [Content(u, m)];
    } else if AfterAttempt(l'.before) {
      assert l'.before != start && Extends(start, l'.before.before);
      AttemptIsTransfer(u, l, m, l'.before.before);
    } else {
      AttemptIsTransfer(u, l, m, l'.before);
    }
  }
}
