/**
 What dart_handle_time does when a timer of a transfer is over, and when that is: the acknowledge timer after 300 ms,
 the response timer after 3000 ms and the wake-up timer after 500 ms.
 */
module DartTimeouts {
  import opened Wrappers
  import opened DartFrame
  import opened Timers
  import opened DartProtocol
  import opened DartRuns
  import opened DartStreams
  import opened DartPair
  import opened DartLogs
  import opened DartProgress
  import opened DartSends
  import opened DartTiming

  /** In every run. */
  lemma Intervals(u: Setup, s: Link, inputs: seq<Input>)
    requires Supported(u.config) && Fresh(s)
    ensures var s' := Run(u, s, inputs);
            && (s'.transfering.Some? ==> s'.ackTimer.interval == 300)
            && (s'.pending.Some? ==> s'.responseTimer.interval == 3000)
  {
    FreshRegular(s);
    RunSound(u, s, inputs);
    RunRegular(u, s, inputs);
    hide Run;
    TimersOfSound(Run(u, s, inputs));
  }

  // ---------------------------------------------------------------- waiting for the acknowledge

  /** The response timer is not over by then. */
  predicate NoResponseDue(s: Link, total: nat) {
    s.pending.Some? ==> s.responseTimer.interval == 3000 && Value(s.responseTimer, s.now) + total < 3000
  }

  lemma AckStill(u: Setup, s: Link, total: nat)
    requires Supported(u.config) && Shaped(s) && s.transfering.Some? && s.ackTimer.interval == 300
    requires Value(s.ackTimer, s.now) + total < 300 && NoResponseDue(s, total)
    ensures StillUntil(u, s, total)
  {
    hide RetryTransfer, AbandonRequest;
    forall t: nat | t <= total ensures HandleTime(u, At(s, t)).0 == At(s, t) {
      ValueLater(s.ackTimer, s.now, t);
      if s.pending.Some? {
        ValueLater(s.responseTimer, s.now, t);
      }
    }
  }

  /** The frame of the message goes out again and is waited for anew. */
  function Resent(u: Setup, s: Link): Link
    requires Supported(u.config) && Shaped(s) && s.transfering.Some?
  {
    var m := InFlight(s);
    Note(Note(s, Attempt(m)), Push(FrameOf(u.config, Content(u, m)))).(txAttempts := s.txAttempts + 1,
                                                                      ackTimer := Timer(s.now, 300))
  }

  /** The failure is reported, and the message leaves its list and is freed. */
  ghost predicate GivenUp(s: Link, s': Link)
    requires Shaped(s) && s.transfering.Some?
  {
    var m := InFlight(s);
    Extends(Then(Then(Then(s.log, TransferFailure(m)), Dequeued(m, s.transfering.value)), Freed(m.id)), s'.log)
  }

  lemma RetryEffect(u: Setup, s: Link)
    requires Supported(u.config) && Shaped(s) && s.transfering.Some?
    ensures s.txAttempts < 2 ==> RetryTransfer(u, s) == Resent(u, s)
    ensures s.txAttempts >= 2 ==> GivenUp(s, RetryTransfer(u, s))
  {
    hide FrameOf, Content, TriggerNext, Extends;
    var s1 := s.(ackTimer := STOPPED, txAttempts := s.txAttempts + 1);
    var s2 := FinalizeTransfer(Note(s1, TransferFailure(InFlight(s))));
    FinalizeShaped(Note(s1, TransferFailure(InFlight(s))));
    TriggerTransferGrows(u, s2);
  }

  /** With the 300 ms over: with RDY high the message is sent again, the third time given up instead; with RDY low it
      goes back to waiting in its list. */
  lemma AckOver(u: Setup, s: Link)
    requires Supported(u.config) && Shaped(s) && s.transfering.Some? && s.ackTimer.interval == 300
    requires Value(s.ackTimer, s.now) >= 300 && NoResponseDue(s, 0)
    ensures !s.rdy ==> HandleTime(u, s).0 == s.(ackTimer := STOPPED, transfering := None)
    ensures s.rdy && s.txAttempts < 2 ==> HandleTime(u, s).0 == Resent(u, s)
    ensures s.rdy && s.txAttempts >= 2 ==> GivenUp(s, HandleTime(u, s).0)
  {
    hide RetryTransfer, AbandonRequest, FrameOf, Content, Extends;
    RetryEffect(u, s.(ackTimer := STOPPED));
  }

  /** A message that nobody answers, RDY being high: for k calls, 300 ms not being over, nothing happens, and at call k
      it is sent again or, the third time, given up. */
  lemma Unanswered(u: Setup, s: Link, ms: seq<nat>, k: nat, i: nat)
    requires Supported(u.config) && Sound(s) && Shaped(s) && s.now < UINT32 && s.rdy
    requires s.transfering.Some? && s.pending.None? && s.ackTimer == Timer(s.now, 300)
    requires Reaches(ms, 0, k, 300) && ms[k] <= LATEST && i <= k
    ensures Calls(u, s, ms[..i]) == At(s, Sum(ms[..i]))
    ensures var s1 := At(s, Sum(ms[..k + 1]));
            && Shaped(s1)
            && (s.txAttempts < 2 ==> Calls(u, s, ms[..k + 1]) == Resent(u, s1))
            && (s.txAttempts >= 2 ==> GivenUp(s1, Calls(u, s, ms[..k + 1])))
  {
    hide Sound, HandleTime, Run, StillUntil, Sum, Calls, Resent, GivenUp;
    forall total: nat | total < 300 ensures StillUntil(u, s, total) {
      AckStill(u, s, total);
    }
    assert ms[0..i] == ms[..i] && ms[0..k + 1] == ms[..k + 1];
    PhaseBefore(u, s, ms, 0, k, 300, i);
    PhaseEnds(u, s, ms, 0, k, 300);
    ValueLater(s.ackTimer, s.now, Sum(ms[..k + 1]));
    AckOver(u, At(s, Sum(ms[..k + 1])));
  }

  // ---------------------------------------------------------------- waiting for the response

  /** At any call, whatever else is going on: the request is abandoned exactly if its 3000 ms are over. */
  lemma ResponseOverIff(u: Setup, s: Link)
    requires Supported(u.config) && Sound(s) && s.pending.Some? && s.responseTimer.interval == 3000
    ensures Shaped(s)
    ensures var (m, s') := (s.pending.value, HandleTime(u, s).0);
            if Value(s.responseTimer, s.now) < 3000 then s'.pending == s.pending && s'.responseTimer == s.responseTimer
            else Extends(Then(Then(s.log, MessageAbandoned(m)), Freed(m.id)), s'.log) && s'.pending.None?
  {
    SoundParts(s);
    hide Sound, AbandonRequest, Extends, TimeRest;
    var s1 := if Expired(s.responseTimer, s.now) then AbandonRequest(u, s) else s;
    AbandonShaped(u, s);
    AbandonEffect(u, s);
    assert HandleTime(u, s).0 == TimeRest(u, s1) by { TimeInParts(u, s); }
    hide HandleTime;
    TimeRestKeeps(u, s1);
    ExtendsChain();
  }

  /** The call after the response timer has been seen to. */
  function TimeRest(u: Setup, s: Link): Link
    requires Supported(u.config) && Shaped(s)
  {
    if s.transfering.Some? then HandleAckTimer(u, s)
    else if FindNext(s).Some? then
      if Expired(s.wakeupTimer, s.now) then s.(wakeupTimer := STOPPED, wrk := false) else TriggerTransfer(u, s).0
    else if s.pending.None? && s.rx == [] then HandleQuiet(s).0
    else s
  }

  lemma TimeInParts(u: Setup, s: Link)
    requires Supported(u.config) && Shaped(s)
    ensures var s1 := if s.pending.Some? && Expired(s.responseTimer, s.now) then AbandonRequest(u, s) else s;
            Shaped(s1) && HandleTime(u, s).0 == TimeRest(u, s1)
  {
    AbandonShaped(u, s);
    hide AbandonRequest, HandleAckTimer, TriggerTransfer, HandleQuiet;
  }

  lemma TimeRestKeeps(u: Setup, s: Link)
    requires Supported(u.config) && Shaped(s)
    ensures var s' := TimeRest(u, s);
            s'.pending == s.pending && s'.responseTimer == s.responseTimer && Extends(s.log, s'.log)
  {
    hide RetryTransfer, TriggerTransfer, Extends;
    NoteGrows(s);
    TriggerTransferGrows(u, s);
    TriggerKeepsQueue(u, s);
    KeepsResponse(u, s);
    if s.transfering.Some? {
      RetryTransferGrows(u, s.(ackTimer := STOPPED));
      RetryKeepsPending(u, s.(ackTimer := STOPPED));
    }
  }

  lemma RetryKeepsPending(u: Setup, s: Link)
    requires Supported(u.config) && Shaped(s) && s.transfering.Some?
    ensures RetryTransfer(u, s).pending == s.pending && RetryTransfer(u, s).responseTimer == s.responseTimer
  {
    hide FrameOf, Content, TriggerNext;
    var s1 := Note(s.(ackTimer := STOPPED, txAttempts := s.txAttempts + 1), TransferFailure(InFlight(s)));
    FinalizeShaped(s1);
    KeepsPending(u, FinalizeTransfer(s1));
    KeepsResponse(u, FinalizeTransfer(s1));
  }

  lemma AbandonEffect(u: Setup, s: Link)
    requires Supported(u.config) && Shaped(s) && s.pending.Some?
    ensures var (m, s') := (s.pending.value, AbandonRequest(u, s));
            && Extends(Then(Then(s.log, MessageAbandoned(m)), Freed(m.id)), s'.log)
            && s'.pending.None? && !Running(s'.responseTimer)
  {
    hide TriggerNext, Extends;
    var m := s.pending.value;
    var s1 := Note(Note(s, MessageAbandoned(m)), Freed(m.id)).(responseTimer := STOPPED, pending := None);
    TriggerTransferGrows(u, s1);
    KeepsPending(u, s1);
    KeepsResponse(u, s1);
  }

  lemma KeepsResponse(u: Setup, s: Link)
    requires Supported(u.config) && Shaped(s)
    ensures TriggerNext(u, s).responseTimer == s.responseTimer
    ensures TriggerTransfer(u, s).0.responseTimer == s.responseTimer
  {
    hide FrameOf;
  }

  /** A request that nobody answers, with nothing else to send: for k calls nothing happens, and at call k it is
      abandoned. */
  lemma Abandoned(u: Setup, s: Link, ms: seq<nat>, k: nat, i: nat)
    requires Supported(u.config) && Sound(s) && s.now < UINT32 && s.lists == [[], [], []] && s.transfering.None?
    requires s.pending.Some? && s.responseTimer == Timer(s.now, 3000)
    requires Reaches(ms, 0, k, 3000) && ms[k] <= LATEST && i <= k
    ensures Calls(u, s, ms[..i]) == At(s, Sum(ms[..i]))
    ensures var (m, s') := (s.pending.value, Calls(u, s, ms[..k + 1]));
            Extends(Then(Then(s.log, MessageAbandoned(m)), Freed(m.id)), s'.log) && s'.pending.None?
  {
    SoundParts(s);
    hide Sound, HandleTime, Run, StillUntil, Sum, Calls, Extends;
    forall total: nat | total < 3000 ensures StillUntil(u, s, total) {
      ResponseStill(u, s, total);
    }
    assert ms[0..i] == ms[..i] && ms[0..k + 1] == ms[..k + 1];
    PhaseBefore(u, s, ms, 0, k, 3000, i);
    PhaseEnds(u, s, ms, 0, k, 3000);
    AbandonedAt(u, s, Sum(ms[..k + 1]));
  }

  lemma AbandonedAt(u: Setup, s: Link, total: nat)
    requires Supported(u.config) && Sound(s) && s.pending.Some? && s.responseTimer == Timer(s.now, 3000)
    requires 3000 <= total < UINT32
    ensures Shaped(At(s, total))
    ensures var (m, s') := (s.pending.value, HandleTime(u, At(s, total)).0);
            Extends(Then(Then(s.log, MessageAbandoned(m)), Freed(m.id)), s'.log) && s'.pending.None?
  {
    hide Sound, HandleTime, Extends;
    ValueLater(s.responseTimer, s.now, total);
    AtSound(s, total);
    ResponseOverIff(u, At(s, total));
  }

  lemma AtSound(s: Link, ms: nat)
    requires Sound(s)
    ensures Sound(At(s, ms))
  {
    hide Sound;
    Untouched(s, At(s, ms));
  }

  lemma ResponseStill(u: Setup, s: Link, total: nat)
    requires Supported(u.config) && Shaped(s) && s.lists == [[], [], []] && s.transfering.None?
    requires s.pending.Some? && s.responseTimer.interval == 3000 && Value(s.responseTimer, s.now) + total < 3000
    ensures StillUntil(u, s, total)
  {
    forall t: nat | t <= total ensures HandleTime(u, At(s, t)).0 == At(s, t) {
      ValueLater(s.responseTimer, s.now, t);
    }
  }

  /** An acknowledged request starts its 3000 ms. */
  lemma AckStartsResponse(u: Setup, s: Link)
    requires Supported(u.config) && Shaped(s) && s.transfering.Some? && IsRequest(InFlight(s).Type())
    ensures var s' := AcknowledgeMsg(u, s); s'.pending == Some(InFlight(s)) && s'.responseTimer == Timer(s.now, 3000)
  {
    hide TriggerNext;
    var s1 := Dequeue(s.(ackTimer := STOPPED)).(responseTimer := Timer(s.now, RESPONSE_TIMER),
                                                pending := Some(InFlight(s)));
    KeepsPending(u, s1);
    KeepsResponse(u, s1);
  }

  // ---------------------------------------------------------------- waking the other side up

  /** WAITING reported so many times. */
  function Waited(l: Log, n: nat): Log {
    if n == 0 then l else Then(Waited(l, n - 1), DartProtocol.Waiting)
  }

  /** Something can be sent, but RDY is low. */
  predicate Unready(s: Link) {
    Shaped(s) && s.transfering.None? && s.pending.None? && FindNext(s).Some? && !s.rdy
  }

  /** The call that raises WRK. */
  lemma Wakes(u: Setup, s: Link)
    requires Supported(u.config) && Unready(s) && !s.wrk && s.wakeupAttempts < 3 && !Running(s.wakeupTimer)
    ensures HandleTime(u, s).0 ==
            Note(s, DartProtocol.Waiting).(wrk := true, wakeupAttempts := s.wakeupAttempts + 1,
                                           wakeupTimer := Timer(s.now, 500))
  {
  }

  /** While WRK is high and the 500 ms are not over, a call only reports that the link waits. */
  lemma StaysAwake(u: Setup, s: Link)
    requires Supported(u.config) && Unready(s) && s.wrk && s.wakeupTimer.interval == 500
    ensures HandleTime(u, s).0 == if Value(s.wakeupTimer, s.now) < 500 then Note(s, DartProtocol.Waiting)
                                  else s.(wakeupTimer := STOPPED, wrk := false)
  {
  }

  /** After three attempts the next call reports that the transfer is impossible. */
  lemma WakesInVain(u: Setup, s: Link)
    requires Supported(u.config) && Unready(s) && !s.wrk && s.wakeupAttempts == 3 && !Running(s.wakeupTimer)
    ensures HandleTime(u, s).0 == Note(s.(wakeupAttempts := 0), TransferImpossible)
  {
  }

  lemma {:induction false} WaitedMore(l: Log, a: nat, b: nat)
    ensures Waited(Waited(l, a), b) == Waited(l, a + b)
    ensures Waited(Then(l, DartProtocol.Waiting), a) == Waited(l, a + 1)
    decreases a + b
  {
    if b != 0 {
      WaitedMore(l, a, b - 1);
    } else if a != 0 {
      WaitedMore(l, a - 1, 0);
    }
  }

  /** While WRK is high. */
  lemma {:induction false} WaitPhase(u: Setup, s: Link, ms: seq<nat>)
    requires Supported(u.config) && Sound(s) && Unready(s) && s.now < UINT32 && s.wrk && s.wakeupTimer.interval == 500
    requires Value(s.wakeupTimer, s.now) + Sum(ms) < 500
    ensures var s' := At(s, Sum(ms)).(log := Waited(s.log, |ms|)); Calls(u, s, ms) == s' && Sound(s')
    decreases |ms|
  {
    hide Sound, HandleTime, Run, Waited;
    if ms == [] {
      NoCalls(u, s);
      assert Waited(s.log, 0) == s.log by { NoneWaited(s.log); }
    } else {
      var s1 := Note(At(s, ms[0]), DartProtocol.Waiting);
      assert ms == [ms[0]] + ms[1..];
      OneCall(u, s, ms[0]);
      ValueLater(s.wakeupTimer, s.now, ms[0]);
      StaysAwake(u, At(s, ms[0]));
      CallsAppend(u, s, [ms[0]], ms[1..]);
      WaitPhase(u, s1, ms[1..]);
      WaitedMore(s.log, |ms| - 1, 0);
      AddModulo(s.now + ms[0], Sum(ms[1..]));
    }
  }

  lemma NoneWaited(l: Log)
    ensures Waited(l, 0) == l
  {
  }

  /** A wake-up in vain: call i raises WRK, call k, the first at which 500 ms have passed since, lowers it. */
  lemma OneWakeUp(u: Setup, s: Link, ms: seq<nat>, i: nat, k: nat)
    requires Supported(u.config) && Sound(s) && Unready(s) && !s.wrk && s.wakeupAttempts < 3 && !Running(s.wakeupTimer)
    requires i < |ms| && Reaches(ms, i + 1, k, 500) && ms[k] <= LATEST
    ensures var s' := At(s, Sum(ms[i..k + 1])).(wakeupAttempts := s.wakeupAttempts + 1, wakeupTimer := STOPPED,
                                                wrk := false, log := Waited(s.log, k - i));
            Calls(u, s, ms[i..k + 1]) == s' && Sound(s')
  {
    hide Sound, HandleTime, Run, Waited, Sum, Calls;
    ThreeParts(u, s, ms, i, k);
    var s0 := At(s, ms[i]);
    OneCall(u, s, ms[i]);
    Wakes(u, s0);
    var s1 := Note(s0, DartProtocol.Waiting).(wrk := true, wakeupAttempts := s.wakeupAttempts + 1,
                                              wakeupTimer := Timer(s0.now, 500));
    var between := ms[i + 1..k];
    WaitPhase(u, s1, between);
    var s2 := At(s1, Sum(between)).(log := Waited(s1.log, |between|));
    OneCall(u, s2, ms[k]);
    LastWait(u, s1, Sum(between), ms[k], s2);
    WaitedMore(s.log, |between|, 0);
    AtTwice(s, ms[i], Sum(between) + ms[k]);
    AtTwice(s1, Sum(between), ms[k]);
  }

  /** The call that lowers WRK. */
  lemma LastWait(u: Setup, s1: Link, total: nat, ms: nat, s2: Link)
    requires Supported(u.config) && Unready(s1) && s1.wrk && s1.wakeupTimer == Timer(s1.now, 500) && s1.now < UINT32
    requires total < 500 <= total + ms && ms <= LATEST && s2 == At(s1, total).(log := s2.log)
    ensures Shaped(At(s2, ms)) && HandleTime(u, At(s2, ms)).0 == At(s2, ms).(wakeupTimer := STOPPED, wrk := false)
  {
    hide HandleTime;
    AtTwice(s1, total, ms);
    ValueLater(s1.wakeupTimer, s1.now, total + ms);
    StaysAwake(u, At(s2, ms));
  }

  lemma ThreeParts(u: Setup, s: Link, ms: seq<nat>, i: nat, k: nat)
    requires Supported(u.config) && Sound(s) && i < k < |ms|
    ensures Sound(Calls(u, s, [ms[i]])) && Sound(Calls(u, Calls(u, s, [ms[i]]), ms[i + 1..k]))
    ensures Calls(u, s, ms[i..k + 1]) == Calls(u, Calls(u, Calls(u, s, [ms[i]]), ms[i + 1..k]), [ms[k]])
    ensures Sum(ms[i..k + 1]) == ms[i] + (Sum(ms[i + 1..k]) + ms[k])
    ensures Sum(ms[i + 1..k + 1]) == Sum(ms[i + 1..k]) + ms[k]
  {
    hide Sound, Run, Sum, Calls;
    assert ms[i..k + 1] == [ms[i]] + (ms[i + 1..k] + [ms[k]]);
    assert ms[i + 1..k + 1] == ms[i + 1..k] + [ms[k]];
    CallsAppend(u, s, [ms[i]], ms[i + 1..k] + [ms[k]]);
    CallsAppend(u, Calls(u, s, [ms[i]]), ms[i + 1..k], [ms[k]]);
    SumAppend([ms[i]], ms[i + 1..k] + [ms[k]]);
    SumAppend(ms[i + 1..k], [ms[k]]);
    SumOne(ms[i]);
    SumOne(ms[k]);
  }

  /** After i calls: n wake-ups in vain, and WAITING reported w times. */
  ghost predicate Tried(u: Setup, s: Link, ms: seq<nat>, i: nat, n: nat, w: nat)
    requires Supported(u.config) && Sound(s) && i <= |ms|
  {
    var s' := Calls(u, s, ms[..i]);
    && Sound(s') && Unready(s') && !s'.wrk && !Running(s'.wakeupTimer)
    && s'.wakeupAttempts == n && s'.log == Waited(s.log, w)
  }

  lemma TriedOnceMore(u: Setup, s: Link, ms: seq<nat>, i: nat, n: nat, w: nat, k: nat)
    requires Supported(u.config) && Sound(s) && i < |ms| && n < 3 && Tried(u, s, ms, i, n, w)
    requires Reaches(ms, i + 1, k, 500) && ms[k] <= LATEST
    ensures Tried(u, s, ms, k + 1, n + 1, w + (k - i))
  {
    hide Sound, HandleTime, Run, Waited, Sum, Calls;
    var s' := Calls(u, s, ms[..i]);
    OneWakeUp(u, s', ms, i, k);
    assert ms[..k + 1] == ms[..i] + ms[i..k + 1];
    CallsAppend(u, s, ms[..i], ms[i..k + 1]);
    WaitedMore(s.log, w, k - i);
  }

  lemma TriedNone(u: Setup, s: Link, ms: seq<nat>)
    requires Supported(u.config) && Sound(s) && Unready(s) && !s.wrk && s.wakeupAttempts == 0 && !Running(s.wakeupTimer)
    ensures Tried(u, s, ms, 0, 0, 0)
  {
    hide Sound, Run;
    assert ms[..0] == [];
    NoCalls(u, s);
  }

  /** A link that has something to send to one that never raises RDY: WRK is raised three times for 500 ms each, and
      the call after that, and no earlier one, reports that the transfer is impossible. */
  lemma ImpossibleAfterThree(u: Setup, s: Link, ms: seq<nat>, k1: nat, k2: nat, k3: nat)
    requires Supported(u.config) && Sound(s) && Unready(s) && !s.wrk && s.wakeupAttempts == 0 && !Running(s.wakeupTimer)
    requires k1 + 2 <= k2 && k2 + 2 <= k3 && k3 + 1 < |ms|
    requires ms[k1] <= LATEST && ms[k2] <= LATEST && ms[k3] <= LATEST
    requires Reaches(ms, 1, k1, 500) && Reaches(ms, k1 + 2, k2, 500) && Reaches(ms, k2 + 2, k3, 500)
    ensures Calls(u, s, ms[..k3 + 1]).log == Waited(s.log, k3 - 2)
    ensures Calls(u, s, ms[..k3 + 2]).log == Then(Waited(s.log, k3 - 2), TransferImpossible)
  {
    hide *;
    TriedNone(u, s, ms);
    TriedOnceMore(u, s, ms, 0, 0, 0, k1);
    TriedOnceMore(u, s, ms, k1 + 1, 1, k1, k2);
    TriedOnceMore(u, s, ms, k2 + 1, 2, k2 - 1, k3);
    TriedThree(u, s, ms, k3 + 1, k3 - 2);
  }

  lemma TriedThree(u: Setup, s: Link, ms: seq<nat>, i: nat, w: nat)
    requires Supported(u.config) && Sound(s) && i < |ms| && Tried(u, s, ms, i, 3, w)
    ensures Calls(u, s, ms[..i]).log == Waited(s.log, w)
    ensures Calls(u, s, ms[..i + 1]).log == Then(Waited(s.log, w), TransferImpossible)
  {
    hide Sound, HandleTime, Run, Waited, Calls;
    var s' := Calls(u, s, ms[..i]);
    assert ms[..i + 1] == ms[..i] + [ms[i]];
    CallsAppend(u, s, ms[..i], [ms[i]]);
    OneCall(u, s', ms[i]);
    WakesInVain(u, At(s', ms[i]));
  }

  // ---------------------------------------------------------------- single bytes

  /** The link once a single byte has been seen to. */
  function Seen(s: Link): Link {
    s.(closingTimer := STOPPED, rx := [], rxTimer := STOPPED)
  }

  predicate BetweenFrames(s: Link) {
    Shaped(s) && s.rx == [] && Timely(s)
  }

  /** On an open line 0xBB asks for the message in flight again, or, the third time, ends it; with none in flight it
      does nothing. */
  lemma BadRepeats(u: Setup, s: Link)
    requires Supported(u.config) && BetweenFrames(s) && s.wrk
    ensures var s' := HandleReceivedChar(u, s, 0xBB);
            && (s.transfering.None? ==> s' == Seen(s))
            && (s.transfering.Some? && s.txAttempts < 2 ==> s' == Seen(Resent(u, s)))
            && (s.transfering.Some? && s.txAttempts >= 2 ==> GivenUp(s, s'))
  {
    hide RetryTransfer, Extends, FrameOf, Content;
    var s1 := Store(s, 0xBB);
    if s.transfering.Some? {
      RetryEffect(u, s1);
    } else {
      assert RetryTransfer(u, s1) == s1 by { NothingToRetry(u, s1); }
    }
  }

  lemma NothingToRetry(u: Setup, s: Link)
    requires Supported(u.config) && Shaped(s) && s.transfering.None?
    ensures RetryTransfer(u, s) == s
  {
  }

  /** 0xCC starts the next message at once if there is none in flight and the pins are high. */
  lemma CanStarts(u: Setup, s: Link)
    requires Supported(u.config) && BetweenFrames(s) && s.wrk && s.rdy && s.transfering.None? && FindNext(s).Some?
    ensures var (m, s') := (s.lists[FindNext(s).value][0], HandleReceivedChar(u, s, 0xCC));
            s'.transfering == FindNext(s) && Extends(Then(Then(s.log, Started(m.id, true, true)), Attempt(m)), s'.log)
  {
    hide FrameOf, Content, Extends;
    var s1 := Store(s, 0xCC);
    assert FindNext(s1) == FindNext(s);
    var m := s.lists[FindNext(s).value][0];
    var l := Then(Then(s.log, Started(m.id, true, true)), Attempt(m));
    assert Extends(l, Then(l, Push(FrameOf(u.config, Content(u, m))))) by { OneMoreEvent(l); }
  }

  lemma OneMoreEvent(l: Log)
    ensures forall e :: Extends(l, Then(l, e))
  {
    assert Extends(l, l);
  }

  /** Any other byte that begins no frame, and any of these on a closed line, does nothing. */
  lemma OtherBytesIgnored(u: Setup, s: Link, ch: Byte)
    requires Supported(u.config) && BetweenFrames(s) && ch != 0x55
    requires s.wrk ==> ch != 0xAA && ch != 0xBB && ch != 0xCC
    ensures HandleReceivedChar(u, s, ch) == Seen(s)
  {
    hide RetryTransfer, AcknowledgeMsg, TriggerTransfer;
  }

  /** 0x55 begins a frame and opens the line. */
  lemma SyncOpens(u: Setup, s: Link)
    requires Supported(u.config) && BetweenFrames(s)
    ensures HandleReceivedChar(u, s, 0x55) ==
            s.(closingTimer := STOPPED, rx := [0x55], rxTimer := Timer(s.now, 30), wrk := true)
  {
  }
}
