/** The history of a DART link only grows: whatever happens, what was recorded, sent and received stays. */
module DartLogs {
  import opened Wrappers
  import opened DartFrame
  import opened Timers
  import opened DartProtocol
  import opened DartRuns
  import opened DartStreams

  /** l' continues l. */
  ghost predicate Extends(l: Log, l': Log) {
    l' == l || (l'.Then? && Extends(l, l'.before))
  }

  lemma {:induction false} ExtendsTwice(l: Log, l1: Log, l2: Log)
    requires Extends(l, l1) && Extends(l1, l2)
    ensures Extends(l, l2)
    decreases l2
  {
    if l2 != l1 {
      ExtendsTwice(l, l1, l2.before);
    }
  }

  lemma ExtendsChain()
    ensures forall l, l1, l2 :: Extends(l, l1) && Extends(l1, l2) ==> Extends(l, l2)
  {
    forall l, l1, l2 | Extends(l, l1) && Extends(l1, l2) ensures Extends(l, l2) {
      ExtendsTwice(l, l1, l2);
    }
  }

  lemma NoteGrows(s: Link)
    ensures forall e :: Extends(s.log, Then(s.log, e))
    ensures Extends(s.log, s.log)
  {
    forall e ensures Extends(s.log, Then(s.log, e)) {
      assert Extends(s.log, s.log);
    }
  }

  lemma TransferMsgGrows(u: Setup, s: Link, m: Msg)
    requires Supported(u.config)
    ensures Extends(s.log, TransferMsg(u, s, m).log)
  {
    hide FrameOf, Content;
    var l := TransferMsg(u, s, m).log;
    assert Extends(s.log, l.before);
  }

  lemma TriggerTransferGrows(u: Setup, s: Link)
    requires Supported(u.config) && Shaped(s)
    ensures Extends(s.log, TriggerTransfer(u, s).0.log) && Extends(s.log, TriggerNext(u, s).log)
  {
    hide TransferMsg, Extends;
    ExtendsChain();
    NoteGrows(s);
    if s.transfering.None? && RaiseWrk(s).Some? {
      var s1 := RaiseWrk(s).value;
      if s1.rdy && FindNext(s1).Some? {
        var m := s1.lists[FindNext(s1).value][0];
        var s2 := Note(s1, Started(m.id, s1.wrk, s1.rdy));
        TransferMsgGrows(u, s2.(transfering := FindNext(s1), txAttempts := 0, wakeupAttempts := 0,
                                closingTimer := STOPPED, wakeupTimer := STOPPED), m);
        assert Note(s1, Started(m.id, s1.wrk, s1.rdy)).log == Note(s, Started(m.id, s1.wrk, s1.rdy)).log;
      }
    }
    TriggerNextShaped(u, s);
    NoteGrows(TriggerTransfer(u, s).0);
  }

  lemma FinalizeTransferGrows(s: Link)
    requires Shaped(s)
    ensures Extends(s.log, FinalizeTransfer(s).log)
    ensures s.transfering.Some? ==> Extends(s.log, Dequeue(s).log)
  {
    hide Extends;
    ExtendsChain();
    NoteGrows(s);
    if s.transfering.Some? {
      NoteGrows(Dequeue(s));
    }
  }

  lemma FinalizeShaped(s: Link)
    requires Shaped(s)
    ensures Shaped(FinalizeTransfer(s))
    ensures s.transfering.Some? ==> Shaped(Dequeue(s))
  {
  }

  lemma RetryTransferGrows(u: Setup, s: Link)
    requires Supported(u.config) && Shaped(s)
    ensures Extends(s.log, RetryTransfer(u, s).log)
  {
    hide TransferMsg, TriggerNext, FinalizeTransfer, Extends;
    ExtendsChain();
    NoteGrows(s);
    if s.transfering.Some? {
      var m := s.lists[s.transfering.value][0];
      var s1 := s.(ackTimer := STOPPED, txAttempts := s.txAttempts + 1);
      TransferMsgGrows(u, s1, m);
      NoteGrows(s1);
      var s2 := Note(s1, TransferFailure(m));
      FinalizeTransferGrows(s2);
      FinalizeShaped(s2);
      TriggerTransferGrows(u, FinalizeTransfer(s2));
    }
  }

  lemma AcknowledgeMsgGrows(u: Setup, s: Link)
    requires Supported(u.config) && Shaped(s)
    ensures Extends(s.log, AcknowledgeMsg(u, s).log)
  {
    hide TriggerNext, FinalizeTransfer, Dequeue, Extends;
    ExtendsChain();
    NoteGrows(s);
    if s.transfering.Some? {
      var m := s.lists[s.transfering.value][0];
      var s1 := s.(ackTimer := STOPPED);
      FinalizeTransferGrows(s1);
      FinalizeShaped(s1);
      NoteGrows(s1);
      var s2 := Note(s1, TransferDone(m, |m.data|));
      FinalizeTransferGrows(s2);
      FinalizeShaped(s2);
      TriggerTransferGrows(u, FinalizeTransfer(s2));
      TriggerTransferGrows(u, Dequeue(s1).(responseTimer := Timer(s.now, RESPONSE_TIMER), pending := Some(m)));
    }
  }

  lemma FinalizeRequestGrows(u: Setup, s: Link)
    requires Supported(u.config) && Shaped(s) && s.pending.Some?
    ensures Extends(s.log, FinalizeRequest(u, s).log)
  {
    hide TriggerNext, Extends;
    ExtendsChain();
    NoteGrows(s);
    TriggerTransferGrows(u, Note(s, Freed(s.pending.value.id)).(responseTimer := STOPPED, pending := None));
  }

  lemma AbandonRequestGrows(u: Setup, s: Link)
    requires Supported(u.config) && Shaped(s)
    ensures Extends(s.log, AbandonRequest(u, s).log)
  {
    hide FinalizeRequest, Extends;
    ExtendsChain();
    NoteGrows(s);
    if s.pending.Some? {
      FinalizeRequestGrows(u, Note(s, MessageAbandoned(s.pending.value)));
    }
  }

  lemma HandleReceivedMsgGrows(u: Setup, s: Link, data: seq<Byte>, t: Byte)
    requires Supported(u.config) && Shaped(s)
    ensures Extends(s.log, HandleReceivedMsg(u, s, data, t).log)
  {
    hide FinalizeRequest, Extends;
    ExtendsChain();
    NoteGrows(s);
    var s1 := Note(s, MessageReceived(data));
    NoteGrows(s1);
    if s1.pending.Some? {
      FinalizeRequestGrows(u, Note(s1, TransferDone(s1.pending.value, |data|)));
    }
  }

  lemma HandleFirstCharGrows(u: Setup, s: Link, ch: Byte)
    requires Supported(u.config) && Shaped(s)
    ensures Extends(s.log, HandleFirstChar(u, s, ch).log)
  {
    hide AcknowledgeMsg, RetryTransfer, TriggerTransfer, Extends;
    NoteGrows(s);
    AcknowledgeMsgGrows(u, s);
    RetryTransferGrows(u, s);
    TriggerTransferGrows(u, s);
  }

  lemma HandleFrameGrows(u: Setup, s: Link, n: nat)
    requires Supported(u.config) && Shaped(s) && FrameBytes(u.config, n) <= |s.rx|
    ensures Extends(s.log, HandleFrame(u, s, n).log)
  {
    hide HandleReceivedMsg, CheckBytes, Extends;
    ExtendsChain();
    NoteGrows(s);
    var data := GetData(u.config, s.rx, n);
    NoteGrows(Note(s, Push([BAD])));
    HandleReceivedMsgGrows(u, Note(s, Push([ACK])), data, s.rx[HeaderBytes(u.config)]);
  }

  lemma HandleReceivedCharGrows(u: Setup, s: Link, ch: Byte)
    requires Supported(u.config) && Shaped(s)
    ensures Extends(s.log, HandleReceivedChar(u, s, ch).log)
  {
    hide HandleFirstChar, HandleFrame, GetLen, Extends;
    ExtendsChain();
    NoteGrows(s);
    var s1 := Store(s, ch);
    NoteGrows(s1);
    if |s1.rx| == 1 {
      HandleFirstCharGrows(u, s1, ch);
    } else if HeaderBytes(u.config) <= |s1.rx| {
      var n := GetLen(u.config, s1.rx);
      if FrameBytes(u.config, n) <= |s1.rx| {
        HandleFrameGrows(u, s1, n);
      }
    }
  }

  lemma HandleTimeGrows(u: Setup, s0: Link)
    requires Supported(u.config) && Shaped(s0)
    ensures Extends(s0.log, HandleTime(u, s0).0.log)
  {
    hide AbandonRequest, RetryTransfer, TriggerTransfer, Extends;
    ExtendsChain();
    NoteGrows(s0);
    AbandonRequestGrows(u, s0);
    AbandonShaped(u, s0);
    var s := if s0.pending.Some? && Expired(s0.responseTimer, s0.now) then AbandonRequest(u, s0) else s0;
    NoteGrows(s);
    TriggerTransferGrows(u, s);
    RetryTransferGrows(u, s.(ackTimer := STOPPED));
  }

  lemma SendMsgGrows(u: Setup, s: Link, prio: nat, data: seq<Byte>, memory: bool)
    requires Supported(u.config) && Shaped(s)
    ensures Extends(s.log, SendMsg(u, s, prio, data, memory).0.log)
  {
    hide TriggerTransfer, Extends;
    ExtendsChain();
    NoteGrows(s);
    var m := Msg(s.nextId, data);
    var p := if prio == PRIO_ANY then GuessPriority(m.Type()) else prio;
    if p < PRIO_LENGTH {
      TriggerTransferGrows(u, Enqueue(s, p, m));
    }
  }

  lemma StepGrows(u: Setup, s: Link, i: Input)
    requires Supported(u.config) && Shaped(s)
    ensures Extends(s.log, Step(u, s, i).log)
  {
    hide HandleReceivedChar, HandleTime, SendMsg, Extends;
    NoteGrows(s);
    match i
    case Char(ch) => HandleReceivedCharGrows(u, s, ch);
    case Tick => HandleTimeGrows(u, s);
    case Clock(_) =>
    case Send(prio, data, memory) => SendMsgGrows(u, s, prio, data, memory);
    case SetRdy(_) =>
  }

  // ---------------------------------------------------------------- runs in two parts

  lemma {:induction false} RunAppend(u: Setup, s: Link, a: seq<Input>, b: seq<Input>)
    requires Supported(u.config) && Sound(s)
    ensures Sound(Run(u, s, a))
    ensures Run(u, s, a + b) == Run(u, Run(u, s, a), b)
    ensures NoTimeout(u, s, a + b) ==> NoTimeout(u, s, a) && NoTimeout(u, Run(u, s, a), b)
    ensures AcksRead(u, s, a + b) == AcksRead(u, s, a) + AcksRead(u, Run(u, s, a), b)
    decreases |a|
  {
    hide Sound, Step, ReadsAck, Timely;
    if a == [] {
      assert a + b == b;
    } else {
      assert (a + b)[0] == a[0] && (a + b)[1..] == a[1..] + b;
      SoundParts(s);
      StepSound(u, s, a[0]);
      RunAppend(u, Step(u, s, a[0]), a[1..], b);
    }
  }

  lemma {:induction false} RunGrows(u: Setup, s: Link, inputs: seq<Input>)
    requires Supported(u.config) && Sound(s)
    ensures Extends(s.log, Run(u, s, inputs).log)
    decreases |inputs|
  {
    hide Sound, Step, Extends;
    NoteGrows(s);
    if inputs != [] {
      SoundParts(s);
      StepSound(u, s, inputs[0]);
      StepGrows(u, s, inputs[0]);
      RunGrows(u, Step(u, s, inputs[0]), inputs[1..]);
      ExtendsTwice(s.log, Step(u, s, inputs[0]).log, Run(u, s, inputs).log);
    }
  }
}
