/**
 Progress of a DART link: while the RDY pin is high and dart_handle_time is called whenever the clock has advanced,
 everything queued is finished after a bounded number of calls, whatever bytes arrive.
 */
module DartProgress {
  import opened Wrappers
  import opened DartFrame
  import opened Timers
  import opened DartProtocol
  import opened DartRuns
  import opened DartStreams
  import opened DartPair
  import opened DartLogs

  /** The most calls until a message in flight has left the queue, the next one is in flight, or a wake-up is over. */
  const LONGEST_PAUSE := TX_ATTEMPTS * (ACK_TIMER + 1) + 3
  /** The most calls one message can take, its response included. */
  const PER_MESSAGE := RESPONSE_TIMER + 1 + LONGEST_PAUSE
  /** The clock may jump this far between two calls. */
  const LATEST := 0x8000_0000

  function Waiting(s: Link): nat
    requires Shaped(s)
  {
    |s.lists[0]| + |s.lists[1]| + |s.lists[2]|
  }

  /** How many calls the state of the sender can stay as it is; when only requests wait for the pending one to be
      finished, its response timer says how long that is. */
  function Pause(s: Link): (n: nat)
    requires Shaped(s)
  {
    if s.transfering.Some? then
      (if s.txAttempts < 2 then (2 - s.txAttempts) * (ACK_TIMER + 1) else 0) + Remaining(s.ackTimer, s.now) + 1
    else if Waiting(s) == 0 then 0
    else if FindNext(s).Some? then
      LONGEST_PAUSE - 2 + (if Running(s.wakeupTimer) then 1 else 0)
      + (if s.wakeupAttempts >= WAKEUP_ATTEMPTS then 1 else 0)
    else LONGEST_PAUSE
  }

  function Backlog(s: Link): nat
    requires Shaped(s)
  {
    PER_MESSAGE * Waiting(s) + if s.pending.Some? then Remaining(s.responseTimer, s.now) + 1 else 0
  }

  /** What is left to do, in calls. */
  function Load(s: Link): nat
    requires Shaped(s)
  {
    Backlog(s) + Pause(s)
  }

  /** The timers have the intervals of this module. */
  predicate Regular(s: Link) {
    Shaped(s) && s.ackTimer.interval in {0, 300} && s.responseTimer.interval in {0, 3000}
  }

  /** Nothing that needs no call of the clock adds to what is left. */
  predicate Moves(s: Link, s': Link)
    requires Regular(s)
  {
    && Regular(s') && s'.now == s.now && s'.rdy == s.rdy
    && (!Expired(s.ackTimer, s.now) ==> !Expired(s'.ackTimer, s'.now))
    && (!Expired(s.responseTimer, s.now) ==> !Expired(s'.responseTimer, s'.now))
    && (s.rdy ==> Load(s') <= Load(s))
  }

  lemma PauseBounded(s: Link)
    requires Regular(s)
    ensures Pause(s) <= LONGEST_PAUSE && Remaining(s.responseTimer, s.now) <= RESPONSE_TIMER
    ensures Waiting(s) == 0 && s.pending.None? <==> Load(s) == 0
  {
  }

  lemma MovesTwice(s: Link, s1: Link, s2: Link)
    requires Regular(s) && Moves(s, s1) && Moves(s1, s2)
    ensures Moves(s, s2)
  {
  }

  /** A new event, and fields the load does not depend on. */
  lemma SameMoves(s: Link, s': Link)
    requires Regular(s) && Shaped(s') && s'.now == s.now && s'.rdy == s.rdy && s'.lists == s.lists
    requires s'.transfering == s.transfering && s'.pending == s.pending && s'.txAttempts == s.txAttempts
    requires s'.wakeupTimer == s.wakeupTimer && s'.wakeupAttempts == s.wakeupAttempts
    requires s'.ackTimer == s.ackTimer && s'.responseTimer == s.responseTimer
    ensures Moves(s, s')
  {
  }

  lemma StartMoves(u: Setup, s: Link, p: nat)
    requires Supported(u.config) && Regular(s) && p < PRIO_LENGTH && s.lists[p] != []
    ensures var s' := StartTransfer(u, s, p);
            && Regular(s') && s'.now == s.now && s'.rdy == s.rdy && !Expired(s'.ackTimer, s'.now)
            && s'.responseTimer == s.responseTimer
            && Backlog(s') == Backlog(s) && Pause(s') == LONGEST_PAUSE - 3
  {
    hide FrameOf, Content;
  }

  lemma TriggerTransferMoves(u: Setup, s: Link)
    requires Supported(u.config) && Regular(s)
    ensures Moves(s, TriggerTransfer(u, s).0)
    ensures s.rdy && s.transfering.None? && FindNext(s).Some? ==> Load(TriggerTransfer(u, s).0) < Load(s)
  {
    hide StartTransfer;
    if s.transfering.None? {
      if RaiseWrk(s).None? {
        ImpossibleMoves(s);
      } else {
        var s1 := RaiseWrk(s).value;
        RaisedSame(s);
        if s1.rdy {
          if FindNext(s1).Some? {
            StartMoves(u, s1, FindNext(s1).value);
            SendableWaits(s);
          } else {
            NoneSendable(s, s1);
          }
        }
      }
    }
  }

  lemma ImpossibleMoves(s: Link)
    requires Regular(s) && s.transfering.None? && RaiseWrk(s).None?
    ensures var s' := Note(s.(wakeupAttempts := 0), TransferImpossible);
            Moves(s, s') && (FindNext(s).Some? ==> Load(s') < Load(s))
  {
    if FindNext(s).Some? {
      SendableWaits(s);
    }
  }

  lemma SendableWaits(s: Link)
    requires Shaped(s) && FindNext(s).Some?
    ensures Waiting(s) > 0
  {
  }

  lemma RaisedSame(s: Link)
    requires Regular(s) && RaiseWrk(s).Some?
    ensures var s1 := RaiseWrk(s).value;
            && Regular(s1) && Backlog(s1) == Backlog(s) && FindNext(s1) == FindNext(s) && Waiting(s1) == Waiting(s)
            && s1.rdy == s.rdy && s1.now == s.now && s1.ackTimer == s.ackTimer && s1.responseTimer == s.responseTimer
  {
  }

  lemma NoneSendable(s: Link, s1: Link)
    requires Shaped(s) && Shaped(s1) && s.transfering.None? && s1.transfering.None? && Waiting(s1) == Waiting(s)
    requires FindNext(s).None? && FindNext(s1).None?
    ensures Pause(s1) == Pause(s)
  {
  }

  lemma TriggerNextMoves(u: Setup, s: Link)
    requires Supported(u.config) && Regular(s)
    ensures Moves(s, TriggerNext(u, s))
  {
    TriggerTransferMoves(u, s);
    var (s1, status) := TriggerTransfer(u, s);
    hide TriggerTransfer, Moves;
    MovesShape(s, s1);
    SameMoves(s1, Note(s1, TransferComplete(Outstanding(s1), s1.nextId)));
    MovesTwice(s, s1, Note(s1, TransferComplete(Outstanding(s1), s1.nextId)));
  }

  lemma MovesShape(s: Link, s': Link)
    requires Regular(s) && Moves(s, s')
    ensures Regular(s') && Shaped(s') && s'.now == s.now && s'.rdy == s.rdy
    ensures s.rdy ==> Load(s') <= Load(s)
  {
  }

  /** The message in flight leaves its list; what comes next takes at most a pause, and a request its response. */
  lemma DequeuedMoves(s: Link, s': Link)
    requires Regular(s) && s.transfering.Some? && Regular(s') && s'.lists == Dequeue(s).lists
    requires s'.now == s.now && s'.rdy == s.rdy && !Expired(s'.ackTimer, s'.now)
    requires (s'.responseTimer == s.responseTimer && s'.pending == s.pending) || !Expired(s'.responseTimer, s'.now)
    ensures Moves(s, s')
  {
    assert Waiting(s') == Waiting(s) - 1;
    PauseBounded(s');
  }

  lemma FinalizeMoves(u: Setup, s: Link, e: Event, attempts: nat)
    requires Supported(u.config) && Regular(s) && s.transfering.Some?
    ensures var s' := TriggerNext(u, FinalizeTransfer(Note(s.(ackTimer := STOPPED, txAttempts := attempts), e)));
            Moves(s, s') && !Expired(s'.ackTimer, s.now)
  {
    hide TriggerNext, Moves;
    var s1 := Note(s.(ackTimer := STOPPED, txAttempts := attempts), e);
    var s2 := FinalizeTransfer(s1);
    DequeuedMoves(s, s2);
    TriggerNextMoves(u, s2);
    MovesTwice(s, s2, TriggerNext(u, s2));
    Unexpired(s2, TriggerNext(u, s2));
  }

  lemma ResendMoves(u: Setup, s: Link)
    requires Supported(u.config) && Regular(s) && s.transfering.Some? && s.txAttempts + 1 < TX_ATTEMPTS
    ensures var s' := TransferMsg(u, s.(ackTimer := STOPPED, txAttempts := s.txAttempts + 1), InFlight(s));
            Moves(s, s') && !Expired(s'.ackTimer, s.now)
  {
    hide FrameOf, Content;
  }

  /** A retry also restarts, or ends, the acknowledge timer. */
  lemma RetryTransferMoves(u: Setup, s: Link)
    requires Supported(u.config) && Regular(s)
    ensures Moves(s, RetryTransfer(u, s))
    ensures s.transfering.Some? ==> !Expired(RetryTransfer(u, s).ackTimer, s.now)
  {
    hide TransferMsg, TriggerNext, FinalizeTransfer, Moves;
    SameMoves(s, s);
    if s.transfering.Some? {
      if s.txAttempts + 1 < TX_ATTEMPTS {
        ResendMoves(u, s);
      } else {
        FinalizeMoves(u, s, TransferFailure(InFlight(s)), s.txAttempts + 1);
      }
    }
  }

  lemma AcknowledgeMsgMoves(u: Setup, s: Link)
    requires Supported(u.config) && Regular(s)
    ensures Moves(s, AcknowledgeMsg(u, s))
  {
    hide TriggerNext, FinalizeTransfer, Moves;
    SameMoves(s, s);
    if s.transfering.Some? {
      var m := InFlight(s);
      if IsRequest(m.Type()) {
        var s1 := Dequeue(s.(ackTimer := STOPPED)).(responseTimer := Timer(s.now, RESPONSE_TIMER), pending := Some(m));
        DequeuedMoves(s, s1);
        TriggerNextMoves(u, s1);
        MovesTwice(s, s1, TriggerNext(u, s1));
      } else {
        FinalizeMoves(u, s, TransferDone(m, |m.data|), s.txAttempts);
      }
    }
  }

  /** Without a pending request more may be sendable. */
  lemma UnpendMoves(s: Link, s': Link)
    requires Regular(s) && s.pending.Some? && Shaped(s')
    requires s' == s.(log := s'.log, responseTimer := STOPPED, pending := None)
    ensures Moves(s, s') && (s.rdy ==> Load(s') < Load(s))
  {
    if s.transfering.None? && FindNext(s).Some? {
      assert FindNext(s').Some?;
    } else {
      PauseBounded(s');
    }
  }

  lemma FinalizeRequestMoves(u: Setup, s: Link, e: Event)
    requires Supported(u.config) && Regular(s) && s.pending.Some?
    ensures Moves(s, FinalizeRequest(u, Note(s, e))) && !Expired(FinalizeRequest(u, Note(s, e)).responseTimer, s.now)
  {
    hide TriggerNext, Moves;
    var s1 := Note(Note(s, e), Freed(s.pending.value.id)).(responseTimer := STOPPED, pending := None);
    UnpendMoves(s, s1);
    TriggerNextMoves(u, s1);
    MovesTwice(s, s1, TriggerNext(u, s1));
    Unexpired(s1, TriggerNext(u, s1));
  }

  lemma Unexpired(s: Link, s': Link)
    requires Regular(s) && Moves(s, s')
    ensures !Expired(s.ackTimer, s.now) ==> !Expired(s'.ackTimer, s.now)
    ensures !Expired(s.responseTimer, s.now) ==> !Expired(s'.responseTimer, s.now)
  {
  }

  lemma AbandonRequestMoves(u: Setup, s: Link)
    requires Supported(u.config) && Regular(s)
    ensures Moves(s, AbandonRequest(u, s))
    ensures s.pending.Some? ==> !Expired(AbandonRequest(u, s).responseTimer, s.now)
  {
    hide FinalizeRequest, Moves;
    SameMoves(s, s);
    if s.pending.Some? {
      FinalizeRequestMoves(u, s, MessageAbandoned(s.pending.value));
    }
  }

  lemma HandleReceivedMsgMoves(u: Setup, s: Link, data: seq<Byte>, t: Byte)
    requires Supported(u.config) && Regular(s)
    ensures Moves(s, HandleReceivedMsg(u, s, data, t))
  {
    hide FinalizeRequest, Moves;
    var s1 := Note(s, MessageReceived(data));
    SameMoves(s, s1);
    MovesShape(s, s1);
    if s1.pending.Some? {
      FinalizeRequestMoves(u, s1, TransferDone(s1.pending.value, |data|));
      MovesTwice(s, s1, FinalizeRequest(u, Note(s1, TransferDone(s1.pending.value, |data|))));
    }
  }

  lemma DropFrameMoves(s: Link, s1: Link)
    requires Regular(s) && Moves(s, s1)
    ensures Moves(s, DropFrame(s1))
  {
    hide Moves;
    MovesShape(s, s1);
    SameMoves(s1, DropFrame(s1));
    MovesTwice(s, s1, DropFrame(s1));
  }

  lemma HandleFirstCharMoves(u: Setup, s: Link, ch: Byte)
    requires Supported(u.config) && Regular(s)
    ensures Moves(s, HandleFirstChar(u, s, ch))
  {
    hide AcknowledgeMsg, RetryTransfer, TriggerTransfer, Moves;
    if ch == SYNC {
      SameMoves(s, HandleFirstChar(u, s, ch));
    } else {
      SameMoves(s, s);
      AcknowledgeMsgMoves(u, s);
      RetryTransferMoves(u, s);
      TriggerTransferMoves(u, s);
      var s1 := if !s.wrk then s
                else if ch == ACK then AcknowledgeMsg(u, s)
                else if ch == BAD then RetryTransfer(u, s)
                else if ch == CAN then TriggerTransfer(u, s).0
                else s;
      DropFrameMoves(s, s1);
    }
  }

  lemma HandleFrameMoves(u: Setup, s: Link, n: nat)
    requires Supported(u.config) && Regular(s) && FrameBytes(u.config, n) <= |s.rx|
    ensures Moves(s, HandleFrame(u, s, n))
  {
    hide HandleReceivedMsg, CheckBytes, Moves;
    var data := GetData(u.config, s.rx, n);
    var s1 := Note(Note(s, Push([BAD])), TransferCorrupted);
    SameMoves(s, s1);
    DropFrameMoves(s, s1);
    var s2 := Note(s, Push([ACK]));
    SameMoves(s, s2);
    MovesShape(s, s2);
    var s3 := HandleReceivedMsg(u, s2, data, s.rx[HeaderBytes(u.config)]);
    HandleReceivedMsgMoves(u, s2, data, s.rx[HeaderBytes(u.config)]);
    MovesTwice(s, s2, s3);
    DropFrameMoves(s, s3);
  }

  lemma HandleReceivedCharMoves(u: Setup, s: Link, ch: Byte)
    requires Supported(u.config) && Regular(s)
    ensures Moves(s, HandleReceivedChar(u, s, ch))
  {
    hide HandleFirstChar, HandleFrame, GetLen, Moves;
    var s1 := Store(s, ch);
    SameMoves(s, s1);
    MovesShape(s, s1);
    if |s1.rx| == 1 {
      HandleFirstCharMoves(u, s1, ch);
      MovesTwice(s, s1, HandleFirstChar(u, s1, ch));
    } else if HeaderBytes(u.config) <= |s1.rx| {
      var n := GetLen(u.config, s1.rx);
      SameMoves(s, DropFrame(Note(s1, TransferCorrupted)));
      if FrameBytes(u.config, n) <= |s1.rx| {
        HandleFrameMoves(u, s1, n);
        MovesTwice(s, s1, HandleFrame(u, s1, n));
      }
    }
  }

  lemma HandleQuietMoves(s: Link)
    requires Regular(s)
    ensures Moves(s, HandleQuiet(s).0)
  {
    hide Moves;
    SameMoves(s, HandleQuiet(s).0);
  }

  lemma HandleAckTimerMoves(u: Setup, s: Link)
    requires Supported(u.config) && Regular(s) && s.transfering.Some?
    ensures Moves(s, HandleAckTimer(u, s)) && !Expired(HandleAckTimer(u, s).ackTimer, s.now)
  {
    hide RetryTransfer;
    var s1 := s.(ackTimer := STOPPED);
    if Expired(s.ackTimer, s.now) && s.rdy {
      assert Moves(s, s1);
      hide Moves;
      RetryTransferMoves(u, s1);
      MovesTwice(s, s1, RetryTransfer(u, s1));
    }
  }

  /** After a call no timer is left expired. */
  predicate Prompt(s: Link) {
    !Expired(s.ackTimer, s.now) && !Expired(s.responseTimer, s.now)
  }

  lemma HandleTimeMoves(u: Setup, s0: Link)
    requires Supported(u.config) && Regular(s0) && Sound(s0)
    ensures Moves(s0, HandleTime(u, s0).0) && Prompt(HandleTime(u, s0).0)
    ensures s0.rdy && s0.transfering.None? && s0.pending.None? && Waiting(s0) > 0 ==>
              Load(HandleTime(u, s0).0) < Load(s0)
  {
    var s := if s0.pending.Some? && Expired(s0.responseTimer, s0.now) then AbandonRequest(u, s0) else s0;
    AbandonMoves(u, s0, s);
    var s' := if s.transfering.Some? then HandleAckTimer(u, s) else HandleTime(u, s0).0;
    hide AbandonRequest, HandleAckTimer, Moves, Sound, HandleQuiet, TriggerTransfer, Load;
    if s.transfering.Some? {
      HandleAckTimerMoves(u, s);
      Unexpired(s, s');
      MovesShape(s, s');
    } else if FindNext(s).Some? {
      StartOrStop(u, s, s');
    } else {
      if s.pending.None? {
        NothingSendable(s);
      }
      SameMoves(s, s);
      HandleQuietMoves(s);
      Unexpired(s, HandleQuiet(s).0);
      MovesShape(s, HandleQuiet(s).0);
    }
    MovesTwice(s0, s, s');
  }

  /** Before the rest of the call the response timer has been seen to. */
  lemma AbandonMoves(u: Setup, s0: Link, s: Link)
    requires Supported(u.config) && Regular(s0) && Sound(s0)
    requires s == if s0.pending.Some? && Expired(s0.responseTimer, s0.now) then AbandonRequest(u, s0) else s0
    ensures Moves(s0, s) && Regular(s) && s.now == s0.now && s.rdy == s0.rdy
    ensures !Expired(s.responseTimer, s.now) && (s.transfering.None? ==> !Expired(s.ackTimer, s.now))
  {
    hide AbandonRequest, Moves;
    SameMoves(s0, s0);
    AbandonRequestMoves(u, s0);
    AbandonRequestSound(u, s0);
    MovesShape(s0, s);
    TimersOfSound(s0);
    TimersOfSound(s);
  }

  lemma TimersOfSound(s: Link)
    requires Sound(s)
    ensures Shaped(s)
    ensures (s.transfering.Some? <==> Running(s.ackTimer)) && (s.pending.Some? <==> Running(s.responseTimer))
  {
  }

  lemma NothingSendable(s: Link)
    requires Shaped(s) && FindNext(s).None? && s.pending.None?
    ensures Waiting(s) == 0
  {
    assert !Sendable(s, 0) && !Sendable(s, 1) && !Sendable(s, 2);
  }

  lemma StartOrStop(u: Setup, s: Link, s': Link)
    requires Supported(u.config) && Regular(s) && s.transfering.None? && FindNext(s).Some? && Prompt(s)
    requires s' == if Expired(s.wakeupTimer, s.now) then s.(wakeupTimer := STOPPED, wrk := false)
                   else TriggerTransfer(u, s).0
    ensures Moves(s, s') && Prompt(s') && s'.now == s.now && (s.rdy ==> Load(s') < Load(s))
  {
    hide TriggerTransfer;
    TriggerTransferMoves(u, s);
    SendableWaits(s);
  }

  // ---------------------------------------------------------------- sends, time and runs

  /** What a send can add. */
  const PER_SEND := PER_MESSAGE + LONGEST_PAUSE

  lemma EnqueueMoves(s: Link, p: nat, m: Msg)
    requires Regular(s) && p < PRIO_LENGTH
    ensures Regular(Enqueue(s, p, m)) && Load(Enqueue(s, p, m)) <= Load(s) + PER_SEND
  {
    assert Waiting(Enqueue(s, p, m)) == Waiting(s) + 1;
    PauseBounded(Enqueue(s, p, m));
    hide Remaining, Waiting, Pause;
  }

  lemma SendMsgMoves(u: Setup, s: Link, prio: nat, data: seq<Byte>, memory: bool)
    requires Supported(u.config) && Regular(s)
    ensures var s' := SendMsg(u, s, prio, data, memory).0;
            && Regular(s') && s'.now == s.now && s'.rdy == s.rdy && (Prompt(s) ==> Prompt(s'))
            && (s.rdy ==> Load(s') <= Load(s) + PER_SEND)
  {
    hide TriggerTransfer, Load;
    var m := Msg(s.nextId, data);
    var p := if prio == PRIO_ANY then GuessPriority(m.Type()) else prio;
    if s.running && p < PRIO_LENGTH && memory {
      EnqueueMoves(s, p, m);
      TriggerTransferMoves(u, Enqueue(s, p, m));
    }
  }

  lemma RemainingLowers(t: Timer, now: nat, ms: nat)
    requires !Expired(t, now) && t.interval <= RESPONSE_TIMER && 1 <= ms <= LATEST
    ensures var later := (now + ms) % UINT32;
            && Remaining(t, later) <= Remaining(t, now)
            && (Running(t) ==> Remaining(t, later) < Remaining(t, now))
  {
    var v := now - t.start;
    assert (now + ms) % UINT32 == now + ms - UINT32 * ((now + ms) / UINT32);
    var w := (now + ms) % UINT32 - t.start;
    assert w == v + ms - UINT32 * ((now + ms) / UINT32);
    SameRemainder(w, v + ms, (now + ms) / UINT32);
    assert v == UINT32 * (v / UINT32) + v % UINT32;
    SameRemainder(v % UINT32 + ms, v + ms, v / UINT32);
  }

  lemma SameRemainder(a: int, b: int, k: int)
    requires a == b - UINT32 * k
    ensures a % UINT32 == b % UINT32
  {
  }

  function At(s: Link, ms: nat): Link {
    s.(now := (s.now + ms) % UINT32)
  }

  lemma ClockLowers(s: Link, ms: nat)
    requires Regular(s) && Prompt(s) && 1 <= ms <= LATEST
    ensures Regular(At(s, ms)) && Load(At(s, ms)) <= Load(s)
    ensures (s.transfering.Some? && Running(s.ackTimer)) || (s.pending.Some? && Running(s.responseTimer)) ==>
              Load(At(s, ms)) < Load(s)
  {
    hide Remaining, Expired;
    RemainingLowers(s.ackTimer, s.now, ms);
    RemainingLowers(s.responseTimer, s.now, ms);
    assert FindNext(At(s, ms)) == FindNext(s);
  }

  /** Inputs between two calls: bytes, sends and further calls. */
  predicate Between(i: Input) {
    !i.Clock? && !i.SetRdy?
  }

  function SendCount(inputs: seq<Input>): nat {
    if inputs == [] then 0 else SendCount(inputs[1..]) + if inputs[0].Send? then 1 else 0
  }

  lemma StepMoves(u: Setup, s: Link, i: Input)
    requires Supported(u.config) && Regular(s) && Sound(s)
    ensures Regular(Step(u, s, i))
    ensures Between(i) ==>
              var s' := Step(u, s, i);
              && s'.now == s.now && s'.rdy == s.rdy && (Prompt(s) ==> Prompt(s'))
              && (s.rdy ==> Load(s') <= Load(s) + if i.Send? then PER_SEND else 0)
  {
    hide Sound, Load, HandleReceivedChar, HandleTime, SendMsg;
    match i
    case Char(ch) => HandleReceivedCharMoves(u, s, ch);
    case Tick => HandleTimeMoves(u, s);
    case Clock(_) =>
    case Send(prio, data, memory) => SendMsgMoves(u, s, prio, data, memory);
    case SetRdy(_) =>
  }

  lemma {:induction false} RunRegular(u: Setup, s: Link, inputs: seq<Input>)
    requires Supported(u.config) && Regular(s) && Sound(s)
    ensures Regular(Run(u, s, inputs))
    decreases |inputs|
  {
    hide Sound, Step, Regular;
    if inputs != [] {
      SoundParts(s);
      StepSound(u, s, inputs[0]);
      StepMoves(u, s, inputs[0]);
      RunRegular(u, Step(u, s, inputs[0]), inputs[1..]);
    }
  }

  lemma {:induction false} BetweenMoves(u: Setup, s: Link, inputs: seq<Input>)
    requires Supported(u.config) && Regular(s) && Sound(s) && s.rdy && forall i :: i in inputs ==> Between(i)
    ensures var s' := Run(u, s, inputs);
            && Regular(s') && s'.rdy && (Prompt(s) ==> Prompt(s')) && Load(s') <= Load(s) + PER_SEND * SendCount(inputs)
    decreases |inputs|
  {
    hide Sound, Step, Regular, Load, Prompt;
    if inputs != [] {
      SoundParts(s);
      StepSound(u, s, inputs[0]);
      StepMoves(u, s, inputs[0]);
      BetweenMoves(u, Step(u, s, inputs[0]), inputs[1..]);
    }
  }

  // ---------------------------------------------------------------- rounds

  /** Anything between two calls, the time that passes, and the call. */
  datatype Round = Round(between: seq<Input>, ms: nat)

  predicate InTime(r: Round) {
    1 <= r.ms <= LATEST && forall i :: i in r.between ==> Between(i)
  }

  function RoundInputs(r: Round): seq<Input> {
    r.between + [Input.Clock(r.ms), Tick]
  }

  function AllInputs(rounds: seq<Round>): seq<Input> {
    if rounds == [] then [] else RoundInputs(rounds[0]) + AllInputs(rounds[1..])
  }

  function AllSends(rounds: seq<Round>): nat {
    if rounds == [] then 0 else SendCount(rounds[0].between) + AllSends(rounds[1..])
  }

  /** With nothing expired before, a call after some time leaves less to do, or nothing. */
  lemma CallLowers(u: Setup, s: Link, ms: nat)
    requires Supported(u.config) && Regular(s) && Sound(s) && s.rdy && 1 <= ms <= LATEST
    ensures Sound(At(s, ms))
    ensures var s' := HandleTime(u, At(s, ms)).0;
            && Sound(s') && Regular(s') && s'.rdy && Prompt(s') && Load(s') <= Load(s) + PER_MESSAGE
            && (Prompt(s) ==> Load(s') == 0 || Load(s') < Load(s))
  {
    var s1 := At(s, ms);
    Untouched(s, s1);
    HandleTimeSound(u, s1);
    HandleTimeMoves(u, s1);
    TimersOfSound(s);
    PauseBounded(s1);
    assert Backlog(s1) <= Backlog(s) + RESPONSE_TIMER;
    PauseBounded(s);
    hide HandleTime, Sound, Load, Remaining, Expired;
    if Prompt(s) {
      ClockLowers(s, ms);
      assert Waiting(s1) == Waiting(s);
    }
  }

  lemma RunOne(u: Setup, s: Link, i: Input)
    requires Supported(u.config) && Sound(s)
    ensures Shaped(s) && Sound(Step(u, s, i)) && Run(u, s, [i]) == Step(u, s, i)
  {
    hide Sound, Step;
    SoundParts(s);
    StepSound(u, s, i);
    assert [i][1..] == [] && Run(u, Step(u, s, i), []) == Step(u, s, i);
  }

  lemma RunClockTick(u: Setup, s: Link, ms: nat)
    requires Supported(u.config) && Sound(s)
    ensures Sound(At(s, ms)) && Shaped(At(s, ms))
    ensures Run(u, s, [Input.Clock(ms), Tick]) == HandleTime(u, At(s, ms)).0
  {
    hide HandleTime, Sound, Run;
    RunOne(u, s, Input.Clock(ms));
    RunOne(u, At(s, ms), Tick);
    RunAppend(u, s, [Input.Clock(ms)], [Tick]);
    assert [Input.Clock(ms)] + [Tick] == [Input.Clock(ms), Tick];
  }

  lemma RoundLowers(u: Setup, s: Link, r: Round)
    requires Supported(u.config) && Regular(s) && Sound(s) && s.rdy && InTime(r)
    ensures var s' := Run(u, s, RoundInputs(r));
            var cost := PER_SEND * SendCount(r.between);
            && Sound(s') && Regular(s') && s'.rdy && Prompt(s') && Load(s') <= Load(s) + cost + PER_MESSAGE
            && (Prompt(s) ==> Load(s') == 0 || Load(s') < Load(s) + cost)
  {
    hide Sound, Step, Regular, Load, Prompt, HandleTime, Run;
    RunAppend(u, s, r.between, [Input.Clock(r.ms), Tick]);
    BetweenMoves(u, s, r.between);
    var s1 := Run(u, s, r.between);
    RunClockTick(u, s1, r.ms);
    CallLowers(u, s1, r.ms);
  }

  /** Between two rounds. */
  ghost predicate Ready(s: Link) {
    Sound(s) && Regular(s) && s.rdy && Prompt(s)
  }

  ghost predicate Drained(s: Link) {
    Ready(s) && Load(s) == 0
  }

  lemma RunRounds(u: Setup, s: Link, rounds: seq<Round>)
    requires Supported(u.config) && Sound(s) && rounds != []
    ensures Sound(Run(u, s, RoundInputs(rounds[0])))
    ensures Run(u, s, AllInputs(rounds)) == Run(u, Run(u, s, RoundInputs(rounds[0])), AllInputs(rounds[1..]))
  {
    hide Sound, Run, RoundInputs;
    RunAppend(u, s, RoundInputs(rounds[0]), AllInputs(rounds[1..]));
  }

  /** What is left to do, and what the sends in these rounds can add. */
  function Budget(s: Link, rounds: seq<Round>): nat
    requires Shaped(s)
  {
    Load(s) + PER_SEND * AllSends(rounds)
  }

  lemma FirstRound(u: Setup, s: Link, rounds: seq<Round>)
    requires Supported(u.config) && Regular(s) && Sound(s) && s.rdy && rounds != [] && InTime(rounds[0])
    ensures var s' := Run(u, s, RoundInputs(rounds[0]));
            && Sound(s') && Ready(s')
            && Budget(s', rounds[1..]) <= Budget(s, rounds) + PER_MESSAGE
            && (Ready(s) ==> Drained(s') || Budget(s', rounds[1..]) < Budget(s, rounds))
  {
    hide Sound, Regular, Load, Prompt, Run, RoundInputs, SendCount;
    RoundLowers(u, s, rounds[0]);
  }

  lemma {:induction false} Drains(u: Setup, s: Link, rounds: seq<Round>) returns (k: nat)
    requires Supported(u.config) && Ready(s) && forall r :: r in rounds ==> InTime(r)
    requires Budget(s, rounds) <= |rounds|
    ensures k <= |rounds|
    ensures Drained(Run(u, s, AllInputs(rounds[..k])))
    decreases |rounds|
  {
    if Drained(s) {
      NoRounds(u, s, rounds);
      return 0;
    }
    assert Sound(s) && Regular(s) && s.rdy;
    hide Sound, Regular, Load, Prompt, Run, RoundInputs, SendCount, InTime, AllInputs, Ready, Drained, Budget;
    FirstRound(u, s, rounds);
    var s1 := Run(u, s, RoundInputs(rounds[0]));
    k := 0;
    if !Drained(s1) {
      k := Drains(u, s1, rounds[1..]);
    } else {
      NoRounds(u, s1, rounds[1..]);
    }
    OneRoundMore(u, s, rounds, k);
    k := k + 1;
  }

  lemma NoRounds(u: Setup, s: Link, rounds: seq<Round>)
    requires Supported(u.config) && Sound(s)
    ensures Run(u, s, AllInputs(rounds[..0])) == s
  {
  }

  lemma OneRoundMore(u: Setup, s: Link, rounds: seq<Round>, k: nat)
    requires Supported(u.config) && Sound(s) && k < |rounds|
    ensures Sound(Run(u, s, RoundInputs(rounds[0])))
    ensures Run(u, s, AllInputs(rounds[..k + 1])) ==
            Run(u, Run(u, s, RoundInputs(rounds[0])), AllInputs(rounds[1..][..k]))
  {
    hide Sound, Run, RoundInputs, AllInputs;
    RunRounds(u, s, rounds[..k + 1]);
    assert rounds[..k + 1][1..] == rounds[1..][..k];
  }

  lemma {:induction false} DrainsForGood(u: Setup, s: Link, rounds: seq<Round>)
    requires Supported(u.config) && Ready(s) && forall r :: r in rounds ==> InTime(r)
    requires Load(s) <= |rounds| && AllSends(rounds) == 0
    ensures Drained(Run(u, s, AllInputs(rounds)))
    decreases |rounds|
  {
    if rounds != [] {
      FirstRound(u, s, rounds);
      RunRounds(u, s, rounds);
      DrainsForGood(u, Run(u, s, RoundInputs(rounds[0])), rounds[1..]);
    }
  }

  lemma FreshRegular(s: Link)
    requires Fresh(s)
    ensures Regular(s)
  {
  }

  /** With nothing left to do, everything queued is finished and reported. */
  lemma DrainedIsFinished(s: Link)
    requires Drained(s)
    ensures Shaped(s) && Outstanding(s) == 0 && multiset(Finished(s.log)) == AllIds(s.nextId)
  {
    PauseBounded(s);
    NothingLive(s);
    hide Finished, AllIds, Live;
    assert Live(s) + multiset(Finished(s.log)) == multiset(Finished(s.log));
  }

  lemma BudgetBounded(s: Link, rounds: seq<Round>)
    requires Regular(s)
    ensures Budget(s, rounds) + PER_MESSAGE <= PER_MESSAGE * Outstanding(s) + PER_SEND * (AllSends(rounds) + 1)
  {
    PauseBounded(s);
  }

  /** A link in any state it can be in, up to the rounds. */
  lemma Reached(u: Setup, s: Link, before: seq<Input>, rounds: seq<Round>)
    requires Supported(u.config) && Fresh(s)
    ensures Sound(s)
    ensures var s0 := Run(u, s, before);
            && Sound(s0) && Regular(s0) && Shaped(s0)
            && Budget(s0, rounds) + PER_MESSAGE <= PER_MESSAGE * Outstanding(s0) + PER_SEND * (AllSends(rounds) + 1)
            && Run(u, s, before + AllInputs(rounds)) == Run(u, s0, AllInputs(rounds))
  {
    FreshRegular(s);
    RunSound(u, s, before);
    RunRegular(u, s, before);
    RunAppend(u, s, before, AllInputs(rounds));
    hide Run;
    BudgetBounded(Run(u, s, before), rounds);
  }

  /** From any state a link can be in: if RDY is high and the call is made whenever the clock has moved on, by at most
      2^31 ms, then, whatever bytes arrive, each message outstanding costs at most 3907 calls and each message sent
      meanwhile 4813; within one call more than all these together, and 4813 for what is going on, there is a moment at
      which every message is finished and reported. If nothing is sent meanwhile it stays so. */
  lemma EverythingFinishes(u: Setup, s: Link, before: seq<Input>, rounds: seq<Round>) returns (k: nat)
    requires Supported(u.config) && Fresh(s) && Shaped(Run(u, s, before)) && Run(u, s, before).rdy
    requires forall r :: r in rounds ==> InTime(r)
    requires PER_MESSAGE * Outstanding(Run(u, s, before)) + PER_SEND * (AllSends(rounds) + 1) < |rounds|
    ensures k <= |rounds|
    ensures var s' := Run(u, s, before + AllInputs(rounds[..k]));
            Shaped(s') && Outstanding(s') == 0 && multiset(Finished(s'.log)) == AllIds(s'.nextId)
    ensures AllSends(rounds) == 0 ==>
              var s' := Run(u, s, before + AllInputs(rounds));
              Shaped(s') && Outstanding(s') == 0 && multiset(Finished(s'.log)) == AllIds(s'.nextId)
  {
    var s0 := Run(u, s, before);
    hide *;
    Reached(u, s, before, rounds);
    k := DrainsAfter(u, s0, rounds);
    Reached(u, s, before, rounds[..k]);
    DrainedIsFinished(Run(u, s0, AllInputs(rounds[..k])));
    if AllSends(rounds) == 0 {
      DrainedIsFinished(Run(u, s0, AllInputs(rounds)));
    }
  }

  lemma DrainsAfter(u: Setup, s: Link, rounds: seq<Round>) returns (k: nat)
    requires Supported(u.config) && Regular(s) && Sound(s) && s.rdy && forall r :: r in rounds ==> InTime(r)
    requires Shaped(s) && Budget(s, rounds) + PER_MESSAGE < |rounds|
    ensures k <= |rounds|
    ensures Drained(Run(u, s, AllInputs(rounds[..k])))
    ensures AllSends(rounds) == 0 ==> Drained(Run(u, s, AllInputs(rounds)))
  {
    hide Run, Sound, Regular, Load, Prompt, RoundInputs, SendCount, AllInputs, InTime;
    FirstRound(u, s, rounds);
    var s1 := Run(u, s, RoundInputs(rounds[0]));
    k := Drains(u, s1, rounds[1..]);
    OneRoundMore(u, s, rounds, k);
    if AllSends(rounds) == 0 {
      DrainsForGood(u, s1, rounds[1..]);
      RunRounds(u, s, rounds);
    }
    k := k + 1;
  }
}
