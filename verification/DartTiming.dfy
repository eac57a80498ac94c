/**
 When dart_handle_time acts: on a link to which nothing else happens it does nothing until a timer is over, and then
 exactly what that timer is for. The times are written out, in milliseconds.
 */
module DartTiming {
  import opened Wrappers
  import opened DartFrame
  import opened Timers
  import opened DartProtocol
  import opened DartRuns
  import opened DartStreams
  import opened DartPair
  import opened DartLogs
  import opened DartProgress
  import opened DartSends

  // ---------------------------------------------------------------- calls and nothing else

  function Sum(ms: seq<nat>): nat {
    if ms == [] then 0 else ms[0] + Sum(ms[1..])
  }

  /** The clock moves on by each of these times, and then the call is made. */
  function CallInputs(ms: seq<nat>): seq<Input> {
    if ms == [] then [] else [Input.Clock(ms[0]), Tick] + CallInputs(ms[1..])
  }

  ghost function Calls(u: Setup, s: Link, ms: seq<nat>): Link
    requires Supported(u.config) && Sound(s)
  {
    Run(u, s, CallInputs(ms))
  }

  lemma {:induction false} SumAppend(a: seq<nat>, b: seq<nat>)
    ensures Sum(a + b) == Sum(a) + Sum(b)
  {
    if a == [] {
      assert a + b == b;
    } else {
      assert (a + b)[1..] == a[1..] + b;
      SumAppend(a[1..], b);
    }
  }

  lemma {:induction false} InputsAppend(a: seq<nat>, b: seq<nat>)
    ensures CallInputs(a + b) == CallInputs(a) + CallInputs(b)
  {
    if a == [] {
      assert a + b == b;
    } else {
      assert (a + b)[1..] == a[1..] + b;
      InputsAppend(a[1..], b);
    }
  }

  lemma CallsAppend(u: Setup, s: Link, a: seq<nat>, b: seq<nat>)
    requires Supported(u.config) && Sound(s)
    ensures Sound(Calls(u, s, a)) && Calls(u, s, a + b) == Calls(u, Calls(u, s, a), b)
  {
    hide Sound, Run;
    InputsAppend(a, b);
    RunAppend(u, s, CallInputs(a), CallInputs(b));
  }

  lemma OneCall(u: Setup, s: Link, ms: nat)
    requires Supported(u.config) && Sound(s)
    ensures Sound(At(s, ms)) && Shaped(At(s, ms)) && Calls(u, s, [ms]) == HandleTime(u, At(s, ms)).0
    ensures Sound(HandleTime(u, At(s, ms)).0)
  {
    hide Sound, HandleTime, Run;
    RunClockTick(u, s, ms);
    CallInputsOne(ms);
    HandleTimeSound(u, At(s, ms));
  }

  lemma CallInputsOne(ms: nat)
    ensures CallInputs([ms]) == [Input.Clock(ms), Tick]
  {
    assert [ms][1..] == [] && [Input.Clock(ms), Tick] + [] == [Input.Clock(ms), Tick];
  }

  lemma AtTwice(s: Link, a: nat, b: nat)
    ensures At(At(s, a), b) == At(s, a + b)
  {
    AddModulo(s.now + a, b);
  }

  lemma AtNow(s: Link)
    requires s.now < UINT32
    ensures At(s, 0) == s
  {
  }

  lemma NoCalls(u: Setup, s: Link)
    requires Supported(u.config) && Sound(s)
    ensures Calls(u, s, []) == s
  {
  }

  /** A call at any time up to this one would change nothing. */
  ghost predicate StillUntil(u: Setup, s: Link, total: nat)
    requires Supported(u.config) && Shaped(s)
  {
    forall t: nat :: t <= total ==> HandleTime(u, At(s, t)).0 == At(s, t)
  }

  lemma {:induction false} Still(u: Setup, s: Link, ms: seq<nat>)
    requires Supported(u.config) && Sound(s) && Shaped(s) && s.now < UINT32 && StillUntil(u, s, Sum(ms))
    ensures Calls(u, s, ms) == At(s, Sum(ms)) && Sound(At(s, Sum(ms)))
    decreases |ms|
  {
    hide Sound, HandleTime, Run, At;
    AtNow(s);
    if ms == [] {
      NoCalls(u, s);
    } else {
      var s1 := At(s, ms[0]);
      assert ms == [ms[0]] + ms[1..];
      OneCall(u, s, ms[0]);
      CallsAppend(u, s, [ms[0]], ms[1..]);
      StillLater(u, s, ms[0], Sum(ms[1..]));
      AtTwice(s, ms[0], Sum(ms[1..]));
      Still(u, s1, ms[1..]);
    }
  }

  lemma StillLater(u: Setup, s: Link, a: nat, b: nat)
    requires Supported(u.config) && Shaped(s) && StillUntil(u, s, a + b)
    ensures Shaped(At(s, a)) && At(s, a).now < UINT32 && StillUntil(u, At(s, a), b)
  {
    assert Shaped(At(s, a)) && At(s, a).now < UINT32;
    hide HandleTime, At;
    forall t: nat | t <= b ensures HandleTime(u, At(At(s, a), t)).0 == At(At(s, a), t) {
      AtTwice(s, a, t);
    }
  }

  /** What a timer shows later. */
  lemma ValueLater(t: Timer, now: nat, ms: nat)
    requires Value(t, now) + ms < UINT32
    ensures Value(t, (now + ms) % UINT32) == Value(t, now) + ms
  {
    var v := now - t.start;
    assert (now + ms) % UINT32 == now + ms - UINT32 * ((now + ms) / UINT32);
    var w := (now + ms) % UINT32 - t.start;
    SameRemainder(w, v + ms, (now + ms) / UINT32);
    assert v == UINT32 * (v / UINT32) + v % UINT32;
    SameRemainder(v % UINT32 + ms, v + ms, v / UINT32);
  }

  // ---------------------------------------------------------------- a quiet link

  /** Nothing is queued, in flight, awaited or partly received. */
  predicate Quiet(s: Link) {
    s.lists == [[], [], []] && s.transfering.None? && s.pending.None? && s.rx == []
  }

  lemma QuietCall(u: Setup, s: Link)
    requires Supported(u.config) && Quiet(s)
    ensures Shaped(s) && HandleTime(u, s) == HandleQuiet(s)
  {
  }

  /** With RDY high, WRK low and no closing in progress, the next call raises WRK, answers Pending, and does no more. */
  lemma QuietWakes(u: Setup, s: Link)
    requires Supported(u.config) && Quiet(s) && s.rdy && !s.wrk && !Running(s.closingTimer)
    ensures Shaped(s) && HandleTime(u, s) == (s.(wrk := true), Pending)
  {
  }

  /** Without a pending request, a call answers that the link is idle exactly if it is quiet and not waking up. */
  lemma AnswersIdleIff(u: Setup, s: Link)
    requires Supported(u.config) && Shaped(s) && s.pending.None?
    ensures HandleTime(u, s).1 == Nothing <==> Quiet(s) && !(s.rdy && !s.wrk && !Running(s.closingTimer))
  {
    hide HandleAckTimer, StartTransfer;
    if s.transfering.None? && FindNext(s).None? {
      assert !Sendable(s, 0) && !Sendable(s, 1) && !Sendable(s, 2);
    }
  }

  /** While the closing timer runs, whatever it is for, nothing happens. */
  lemma ClosingStill(u: Setup, s: Link, total: nat)
    requires Supported(u.config) && Quiet(s) && Shaped(s) && Running(s.closingTimer)
    requires Value(s.closingTimer, s.now) + total < s.closingTimer.interval <= 100
    ensures StillUntil(u, s, total)
  {
    forall t: nat | t <= total ensures HandleTime(u, At(s, t)).0 == At(s, t) {
      ValueLater(s.closingTimer, s.now, t);
      QuietCall(u, At(s, t));
    }
  }

  /** The first call starts the closing timer. */
  lemma ClosingStarts(u: Setup, s: Link)
    requires Supported(u.config) && Quiet(s) && s.wrk && !Running(s.closingTimer)
    ensures Shaped(s) && HandleTime(u, s).0 == s.(closingTimer := Timer(s.now, 50))
  {
  }

  lemma ClosingEnds(u: Setup, s: Link)
    requires Supported(u.config) && Quiet(s) && s.closingTimer.interval == (if s.wrk then 50 else 100) && !s.rdy
    requires Value(s.closingTimer, s.now) >= s.closingTimer.interval
    ensures Shaped(s)
    ensures HandleTime(u, s).0 == if s.wrk then s.(wrk := false, closingTimer := Timer(s.now, 100))
                                  else Note(s.(closingTimer := STOPPED), Idle(0, 0, false, false))
  {
  }

  /** From call i on, for so many calls, the time stays below the limit; with one more call it does not. */
  predicate Reaches(ms: seq<nat>, i: nat, k: nat, limit: nat) {
    i <= k < |ms| && Sum(ms[i..k]) < limit <= Sum(ms[i..k + 1])
  }

  /** What a phase of waiting does: nothing until the interval is over, and then one call. */
  lemma PhaseBefore(u: Setup, s: Link, ms: seq<nat>, i: nat, k: nat, limit: nat, j: nat)
    requires Supported(u.config) && Sound(s) && Shaped(s) && s.now < UINT32
    requires Reaches(ms, i, k, limit) && i <= j <= k
    requires forall total: nat :: total < limit ==> StillUntil(u, s, total)
    ensures Calls(u, s, ms[i..j]) == At(s, Sum(ms[i..j])) && Sum(ms[i..j]) < limit
  {
    hide Sound, HandleTime, Run, At, StillUntil;
    assert ms[i..k] == ms[i..j] + ms[j..k];
    SumAppend(ms[i..j], ms[j..k]);
    Still(u, s, ms[i..j]);
  }

  lemma PhaseEnds(u: Setup, s: Link, ms: seq<nat>, i: nat, k: nat, limit: nat)
    requires Supported(u.config) && Sound(s) && Shaped(s) && s.now < UINT32
    requires Reaches(ms, i, k, limit)
    requires forall total: nat :: total < limit ==> StillUntil(u, s, total)
    ensures var total := Sum(ms[i..k + 1]);
            && limit <= total < limit + ms[k] && Shaped(At(s, total))
            && Calls(u, s, ms[i..k + 1]) == HandleTime(u, At(s, total)).0
            && Sound(HandleTime(u, At(s, total)).0)
  {
    hide Sound, HandleTime, Run, At, StillUntil;
    PhaseBefore(u, s, ms, i, k, limit, k);
    assert ms[i..k + 1] == ms[i..k] + [ms[k]];
    SumAppend(ms[i..k], [ms[k]]);
    assert Sum([ms[k]]) == ms[k] by { SumOne(ms[k]); }
    CallsAppend(u, s, ms[i..k], [ms[k]]);
    OneCall(u, At(s, Sum(ms[i..k])), ms[k]);
    AtTwice(s, Sum(ms[i..k]), ms[k]);
  }

  lemma SumOne(x: nat)
    ensures Sum([x]) == x
  {
    assert [x][1..] == [];
  }

  /** The link once the first call has been made. */
  lemma QuietFirst(u: Setup, s: Link, ms: nat)
    requires Supported(u.config) && Sound(s) && Quiet(s) && s.wrk && !Running(s.closingTimer)
    ensures var s1 := At(s, ms).(closingTimer := Timer(At(s, ms).now, 50));
            && Calls(u, s, [ms]) == s1 && Sound(s1) && Quiet(s1) && Shaped(s1) && s1.now < UINT32
            && (forall total: nat :: total < 50 ==> StillUntil(u, s1, total))
  {
    hide Sound, HandleTime, Run, StillUntil;
    OneCall(u, s, ms);
    ClosingStarts(u, At(s, ms));
    var s1 := At(s, ms).(closingTimer := Timer(At(s, ms).now, 50));
    forall total: nat | total < 50 ensures StillUntil(u, s1, total) {
      ClosingStill(u, s1, total);
    }
  }

  /** The closing timer of a quiet link with RDY low runs off: WRK falls and the next timer starts, or IDLE is
      reported. */
  lemma QuietPhase(u: Setup, s: Link, ms: seq<nat>, i: nat, k: nat)
    requires Supported(u.config) && Sound(s) && Shaped(s) && s.now < UINT32 && Quiet(s) && !s.rdy
    requires s.closingTimer == Timer(s.now, if s.wrk then 50 else 100)
    requires Reaches(ms, i, k, s.closingTimer.interval) && ms[k] <= LATEST
    ensures forall total: nat :: total < s.closingTimer.interval ==> StillUntil(u, s, total)
    ensures var s1 := At(s, Sum(ms[i..k + 1]));
            Calls(u, s, ms[i..k + 1]) == if s.wrk then s1.(wrk := false, closingTimer := Timer(s1.now, 100))
                                         else Note(s1.(closingTimer := STOPPED), Idle(0, 0, false, false))
    ensures Sound(Calls(u, s, ms[i..k + 1]))
  {
    hide Sound, HandleTime, Run, StillUntil, Sum;
    assert Value(s.closingTimer, s.now) == 0;
    forall total: nat | total < s.closingTimer.interval ensures StillUntil(u, s, total) {
      ClosingStill(u, s, total);
    }
    PhaseEnds(u, s, ms, i, k, s.closingTimer.interval);
    ValueLater(s.closingTimer, s.now, Sum(ms[i..k + 1]));
    ClosingEnds(u, At(s, Sum(ms[i..k + 1])));
  }

  lemma IdleStill(u: Setup, s: Link, total: nat)
    requires Supported(u.config) && Quiet(s) && !s.wrk && !s.rdy && !Running(s.closingTimer)
    ensures Shaped(s) && StillUntil(u, s, total)
  {
  }

  /** A quiet link with RDY low, from the first call after its last byte or transfer on, whatever time passes between
      the calls. Call k is the first at which 50 ms have passed since call 0: WRK is high before it and low after it.
      Call j is the first at which another 100 ms have passed: IDLE is reported there, once, and nothing else ever. */
  lemma QuietLinkCloses(u: Setup, s: Link, ms: seq<nat>, k: nat, j: nat, i: nat)
    requires Supported(u.config) && Sound(s) && Quiet(s) && s.wrk && !s.rdy && !Running(s.closingTimer)
    requires k < j < |ms| && ms[k] <= LATEST && ms[j] <= LATEST && i <= |ms|
    requires Reaches(ms, 1, k, 50) && Reaches(ms, k + 1, j, 100)
    ensures var s' := Calls(u, s, ms[..i]);
            && (s'.wrk <==> i <= k)
            && s'.log == if i <= j then s.log else Then(s.log, Idle(0, 0, false, false))
  {
    hide Sound, HandleTime, Run, StillUntil, Sum, Calls, Reaches;
    if i == 0 {
      assert ms[..0] == [];
      NoCalls(u, s);
    } else {
      QuietFirst(u, s, ms[0]);
      assert ms[..i] == [ms[0]] + ms[1..i];
      CallsAppend(u, s, [ms[0]], ms[1..i]);
      Lingering(u, Calls(u, s, [ms[0]]), ms, k, j, i);
    }
  }

  lemma Lingering(u: Setup, s: Link, ms: seq<nat>, k: nat, j: nat, i: nat)
    requires Supported(u.config) && Sound(s) && Shaped(s) && s.now < UINT32 && Quiet(s) && s.wrk && !s.rdy
    requires s.closingTimer == Timer(s.now, 50)
    requires k < j < |ms| && ms[k] <= LATEST && ms[j] <= LATEST && 1 <= i <= |ms|
    requires Reaches(ms, 1, k, 50) && Reaches(ms, k + 1, j, 100)
    ensures var s' := Calls(u, s, ms[1..i]);
            (s'.wrk <==> i <= k) && s'.log == if i <= j then s.log else Then(s.log, Idle(0, 0, false, false))
  {
    hide Sound, HandleTime, Run, StillUntil, Sum, Calls, Reaches;
    QuietPhase(u, s, ms, 1, k);
    if i <= k {
      PhaseBefore(u, s, ms, 1, k, 50, i);
    } else {
      assert ms[1..i] == ms[1..k + 1] + ms[k + 1..i];
      CallsAppend(u, s, ms[1..k + 1], ms[k + 1..i]);
      Chilling(u, Calls(u, s, ms[1..k + 1]), ms, k + 1, j, i);
    }
  }

  lemma Chilling(u: Setup, s: Link, ms: seq<nat>, from: nat, j: nat, i: nat)
    requires Supported(u.config) && Sound(s) && Shaped(s) && s.now < UINT32 && Quiet(s) && !s.wrk && !s.rdy
    requires s.closingTimer == Timer(s.now, 100)
    requires Reaches(ms, from, j, 100) && ms[j] <= LATEST && from <= i <= |ms|
    ensures var s' := Calls(u, s, ms[from..i]);
            !s'.wrk && s'.log == if i <= j then s.log else Then(s.log, Idle(0, 0, false, false))
  {
    hide Sound, HandleTime, Run, StillUntil, Sum, Calls;
    QuietPhase(u, s, ms, from, j);
    if i <= j {
      PhaseBefore(u, s, ms, from, j, 100, i);
    } else {
      var s3 := Calls(u, s, ms[from..j + 1]);
      assert ms[from..i] == ms[from..j + 1] + ms[j + 1..i];
      CallsAppend(u, s, ms[from..j + 1], ms[j + 1..i]);
      IdleStill(u, s3, Sum(ms[j + 1..i]));
      Still(u, s3, ms[j + 1..i]);
    }
  }

  lemma {:induction false} FirstReach(ms: seq<nat>, i: nat, limit: nat) returns (k: nat)
    requires limit > 0 && i + limit <= |ms| && forall x :: x in ms ==> x >= 1
    ensures i <= k < i + limit && Reaches(ms, i, k, limit)
  {
    k := i;
    assert ms[i..i] == [];
    while Sum(ms[i..k + 1]) < limit
      invariant i <= k < i + limit && Sum(ms[i..k]) < limit && k - i <= Sum(ms[i..k])
      decreases |ms| - k
    {
      assert ms[i..k + 1] == ms[i..k] + [ms[k]];
      SumAppend(ms[i..k], [ms[k]]);
      SumOne(ms[k]);
      assert ms[k] in ms;
      k := k + 1;
    }
  }

  /** So whenever the clock moves between the calls, WRK is low after at most 51 and IDLE reported after 151 calls. */
  lemma QuietLinkIdles(u: Setup, s: Link, ms: seq<nat>)
    requires Supported(u.config) && Sound(s) && Quiet(s) && s.wrk && !s.rdy && !Running(s.closingTimer)
    requires |ms| >= 151 && forall x :: x in ms ==> 1 <= x <= LATEST
    ensures !Calls(u, s, ms[..51]).wrk
    ensures Calls(u, s, ms).log == Then(s.log, Idle(0, 0, false, false)) && !Calls(u, s, ms).wrk
  {
    hide Sound, HandleTime, Run, Calls;
    var k := FirstReach(ms, 1, 50);
    var j := FirstReach(ms, k + 1, 100);
    assert ms[k] in ms && ms[j] in ms;
    QuietLinkCloses(u, s, ms, k, j, 51);
    QuietLinkCloses(u, s, ms, k, j, |ms|);
    assert ms[..|ms|] == ms;
  }

  /** Any byte, and any transfer that starts, ends the closing, so that it begins anew. */
  lemma ByteEndsClosing(u: Setup, s: Link, ch: Byte)
    requires Supported(u.config) && Shaped(s)
    ensures !Running(HandleReceivedChar(u, s, ch).closingTimer)
    ensures TriggerTransfer(u, s).1 == Success ==> !Running(TriggerTransfer(u, s).0.closingTimer)
  {
    hide HandleReceivedChar, TriggerTransfer;
    CharKeeps(u, s, ch);
    TriggerKeepsQueue(u, s);
  }
}
