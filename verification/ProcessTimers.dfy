/**
 The process timers of source/core/scheduler.c on values: the list of started timers and what the callbacks
 of the handler do to it. A callback may start, restart and stop any timers; the clock stands still while the
 handler runs.
 */
module ProcessTimerRuns {
  import opened Wrappers
  import opened Timers

  datatype Event<T> = Started(t: T, at: nat, interval: nat) | Stopped(t: T) | Fired(t: T, at: nat)

  datatype Command<T> = Start(t: T, ms: Uint32) | Stop(t: T)

  /** The list from its head on, the two fields of every timer, the number of callbacks made, the history. */
  datatype State<T> = State(list: seq<T>, timer: map<T, Timer>, calls: nat, log: seq<Event<T>>)

  // ---------------------------------------------------------------- the operations

  function Remove<T(==)>(list: seq<T>, t: T): seq<T> {
    if list == [] then [] else if list[0] == t then list[1..] else [list[0]] + Remove(list[1..], t)
  }

  /** scheduler_timer_start and scheduler_timer_stop */
  function Do<T(==)>(s: State<T>, c: Command<T>, now: Uint32): State<T> {
    match c
    case Start(t, ms) =>
      s.(list := if t in s.list then s.list else [t] + s.list, timer := s.timer[t := Timer(now, ms)],
         log := s.log + [Started(t, now, ms)])
    case Stop(t) =>
      s.(list := Remove(s.list, t), timer := s.timer[t := STOPPED], log := s.log + [Stopped(t)])
  }

  /** What a callback does, the last command outermost. */
  function DoAll<T(==)>(s: State<T>, cs: seq<Command<T>>, now: Uint32): State<T> {
    if cs == [] then s else Do(DoAll(s, cs[..|cs| - 1], now), cs[|cs| - 1], now)
  }

  predicate Formed<T(==)>(s: State<T>) {
    forall t :: t in s.list ==> t in s.timer
  }

  /** The first expired timer from place i on. */
  function FindFrom<T(==)>(s: State<T>, i: nat, now: Uint32): (r: Option<nat>)
    requires Formed(s) && i <= |s.list|
    ensures r.Some? ==> i <= r.value < |s.list| && Expired(s.timer[s.list[r.value]], now)
    ensures r.None? ==> forall j :: i <= j < |s.list| ==> !Expired(s.timer[s.list[j]], now)
    decreases |s.list| - i
  {
    if i == |s.list| then None
    else if Expired(s.timer[s.list[i]], now) then Some(i)
    else FindFrom(s, i + 1, now)
  }

  lemma FindFromStep<T>(s: State<T>, i: nat, now: Uint32)
    requires Formed(s) && i <= |s.list|
    ensures FindFrom(s, i, now) ==
            if i == |s.list| then None
            else if Expired(s.timer[s.list[i]], now) then Some(i)
            else FindFrom(s, i + 1, now)
  {
  }

  /** scheduler_timer_find_expired takes the timer out. */
  function Take<T(==)>(s: State<T>, i: nat, now: Uint32): State<T>
    requires i < |s.list|
  {
    s.(list := s.list[..i] + s.list[i + 1..], timer := s.timer[s.list[i] := STOPPED],
       log := s.log + [Fired(s.list[i], now)])
  }

  /** One round of the handler: the timer is taken out and its process is called. */
  function Round<T(==)>(s: State<T>, i: nat, react: nat -> seq<Command<T>>, now: Uint32): State<T>
    requires i < |s.list|
  {
    DoAll(Take(s, i, now).(calls := s.calls + 1), react(s.calls), now)
  }

  /** scheduler_timer_handler. It ends although callbacks may start timers: a timer just started is not expired,
      so every round leaves fewer expired timers. */
  function Handle<T(==)>(s: State<T>, react: nat -> seq<Command<T>>, now: Uint32): (s': State<T>)
    requires Formed(s)
    ensures Formed(s')
    decreases |Due(s, now)|
  {
    match FindFrom(s, 0, now)
    case None => s
    case Some(i) =>
      RoundLowersDue(s, i, react, now);
      Handle(Round(s, i, react, now), react, now)
  }

  // ---------------------------------------------------------------- why the handler ends

  /** The expired timers in the list. */
  function Due<T(==)>(s: State<T>, now: Uint32): set<T>
    requires Formed(s)
  {
    set t | t in s.list && Expired(s.timer[t], now)
  }

  lemma RemoveKeeps<T>(list: seq<T>, t: T)
    ensures forall x :: x in Remove(list, t) ==> x in list
    ensures forall x :: x in list && x != t ==> x in Remove(list, t)
  {
  }

  lemma DoAddsNoneDue<T>(s: State<T>, c: Command<T>, now: Uint32)
    requires Formed(s)
    ensures Formed(Do(s, c, now)) && Due(Do(s, c, now), now) <= Due(s, now)
  {
    if c.Stop? {
      RemoveKeeps(s.list, c.t);
    } else {
      assert Value(Timer(now, c.ms), now) == 0;
    }
  }

  lemma {:induction false} DoAllAddsNoneDue<T>(s: State<T>, cs: seq<Command<T>>, now: Uint32)
    requires Formed(s)
    ensures Formed(DoAll(s, cs, now)) && Due(DoAll(s, cs, now), now) <= Due(s, now)
  {
    if cs != [] {
      DoAllAddsNoneDue(s, cs[..|cs| - 1], now);
      DoAddsNoneDue(DoAll(s, cs[..|cs| - 1], now), cs[|cs| - 1], now);
    }
  }

  lemma SubsetSize<T>(a: set<T>, b: set<T>)
    requires a <= b
    ensures |a| <= |b|
  {
    assert b == a + (b - a);
  }

  lemma RoundLowersDue<T>(s: State<T>, i: nat, react: nat -> seq<Command<T>>, now: Uint32)
    requires Formed(s) && i < |s.list| && Expired(s.timer[s.list[i]], now)
    ensures Formed(Round(s, i, react, now))
    ensures |Due(Round(s, i, react, now), now)| < |Due(s, now)|
  {
    var taken := Take(s, i, now).(calls := s.calls + 1);
    assert Due(taken, now) <= Due(s, now) - {s.list[i]};
    DoAllAddsNoneDue(taken, react(s.calls), now);
    SubsetSize(Due(Round(s, i, react, now), now), Due(s, now) - {s.list[i]});
  }

  // ---------------------------------------------------------------- the list and the history

  /** The last thing that happened to a timer. */
  function LastOf<T(==)>(log: seq<Event<T>>, t: T): Option<Event<T>> {
    if log == [] then None
    else if log[|log| - 1].t == t then Some(log[|log| - 1])
    else LastOf(log[..|log| - 1], t)
  }

  predicate WaitsSince<T(==)>(log: seq<Event<T>>, t: T) {
    LastOf(log, t).Some? && LastOf(log, t).value.Started?
  }

  /** Every timer that fired had been started, not stopped or fired since, and its interval was over. */
  predicate Honest<T(==)>(log: seq<Event<T>>) {
    log == [] ||
    (var e := log[|log| - 1];
     var before := log[..|log| - 1];
     && Honest(before)
     && (e.Fired? ==>
           && WaitsSince(before, e.t)
           && Expired(Timer(LastOf(before, e.t).value.at, LastOf(before, e.t).value.interval), e.at)))
  }

  /** The list holds each timer that waits, once, with the time and the interval of its last start. */
  ghost predicate Sound<T(!new)>(s: State<T>) {
    && Formed(s) && Distinct(s.list) && Honest(s.log)
    && (forall t: T :: t in s.list <==> WaitsSince(s.log, t))
    && (forall t: T :: t in s.list ==>
          var e := LastOf(s.log, t).value; s.timer[t] == Timer(e.at, e.interval))
  }

  lemma DistinctCons<T>(x: T, list: seq<T>)
    ensures Distinct([x] + list) <==> Distinct(list) && x !in list
  {
    forall i, j | Distinct(list) && x !in list && 0 <= i < j < |list| + 1 ensures ([x] + list)[i] != ([x] + list)[j] {
      assert ([x] + list)[j] == list[j - 1];
    }
    forall i, j | Distinct([x] + list) && 0 <= i < j < |list| ensures list[i] != list[j] {
      assert list[i] == ([x] + list)[i + 1] && list[j] == ([x] + list)[j + 1];
    }
    forall i | Distinct([x] + list) && 0 <= i < |list| ensures list[i] != x {
      assert ([x] + list)[0] == x && ([x] + list)[i + 1] == list[i];
    }
  }

  lemma RemoveIsOut<T>(list: seq<T>, t: T)
    requires Distinct(list)
    ensures Distinct(Remove(list, t)) && forall x :: x in Remove(list, t) <==> x in list && x != t
  {
    if list != [] {
      assert list == [list[0]] + list[1..];
      DistinctCons(list[0], list[1..]);
      hide Distinct;
      RemoveIsOut(list[1..], t);
      DistinctCons(list[0], Remove(list[1..], t));
    }
  }

  lemma {:induction false} RemoveAt<T>(list: seq<T>, i: nat)
    requires Distinct(list) && i < |list|
    ensures Remove(list, list[i]) == list[..i] + list[i + 1..]
  {
    if i != 0 {
      assert list == [list[0]] + list[1..];
      DistinctCons(list[0], list[1..]);
      assert list[1..][i - 1] == list[i] != list[0];
      RemoveAt(list[1..], i - 1);
    }
  }

  lemma DistinctHead<T>(list: seq<T>, i: nat)
    requires Distinct(list) && i < |list| && list[i] == list[0]
    ensures i == 0
  {
  }

  lemma {:induction false} RemoveAbsent<T>(list: seq<T>, t: T)
    requires t !in list
    ensures Remove(list, t) == list
  {
    if list != [] {
      RemoveAbsent(list[1..], t);
    }
  }

  lemma LastOfAppend<T>(log: seq<Event<T>>, e: Event<T>, t: T)
    ensures LastOf(log + [e], t) == if e.t == t then Some(e) else LastOf(log, t)
  {
    assert (log + [e])[..|log|] == log;
  }

  lemma HonestAppend<T>(log: seq<Event<T>>, e: Event<T>)
    requires Honest(log)
    requires e.Fired? ==> && WaitsSince(log, e.t)
                          && Expired(Timer(LastOf(log, e.t).value.at, LastOf(log, e.t).value.interval), e.at)
    ensures Honest(log + [e])
  {
    assert (log + [e])[..|log|] == log;
  }

  lemma DoSound<T(!new)>(s: State<T>, c: Command<T>, now: Uint32)
    requires Sound(s)
    ensures Sound(Do(s, c, now))
  {
    var s' := Do(s, c, now);
    var e := s'.log[|s.log|];
    forall t: T ensures LastOf(s'.log, t) == if e.t == t then Some(e) else LastOf(s.log, t) {
      LastOfAppend(s.log, e, t);
    }
    HonestAppend(s.log, e);
    RemoveIsOut(s.list, c.t);
  }

  lemma {:induction false} DoAllSound<T(!new)>(s: State<T>, cs: seq<Command<T>>, now: Uint32)
    requires Sound(s)
    ensures Sound(DoAll(s, cs, now))
  {
    if cs != [] {
      hide Sound;
      DoAllSound(s, cs[..|cs| - 1], now);
      DoSound(DoAll(s, cs[..|cs| - 1], now), cs[|cs| - 1], now);
    }
  }

  lemma TakeSound<T(!new)>(s: State<T>, i: nat, now: Uint32)
    requires Sound(s) && i < |s.list| && Expired(s.timer[s.list[i]], now)
    ensures Sound(Take(s, i, now))
  {
    var s' := Take(s, i, now);
    var e := Fired(s.list[i], now);
    forall t: T ensures LastOf(s'.log, t) == if e.t == t then Some(e) else LastOf(s.log, t) {
      LastOfAppend(s.log, e, t);
    }
    HonestAppend(s.log, e);
    forall t: T ensures t in s'.list <==> t in s.list && t != s.list[i] {
      if t in s.list && t != s.list[i] {
        var j :| 0 <= j < |s.list| && s.list[j] == t;
        assert s'.list[if j < i then j else j - 1] == t;
      }
    }
  }

  lemma {:induction false} HandleSound<T(!new)>(s: State<T>, react: nat -> seq<Command<T>>, now: Uint32)
    requires Sound(s)
    ensures Sound(Handle(s, react, now)) && Due(Handle(s, react, now), now) == {}
    decreases |Due(s, now)|
  {
    match FindFrom(s, 0, now)
    case None =>
    case Some(i) =>
      RoundLowersDue(s, i, react, now);
      TakeSound(s, i, now);
      var taken := Take(s, i, now).(calls := s.calls + 1);
      assert Sound(taken);
      DoAllSound(taken, react(s.calls), now);
      HandleSound(Round(s, i, react, now), react, now);
  }

  // ---------------------------------------------------------------- whole runs

  /** A start or stop from outside, or a call of the handler, at some time. */
  datatype Call<T> = CallDo(c: Command<T>, now: Uint32) | CallHandle(now: Uint32)

  function Step<T(==)>(s: State<T>, call: Call<T>, react: nat -> seq<Command<T>>): (s': State<T>)
    requires Formed(s)
    ensures Formed(s')
  {
    match call
    case CallDo(c, now) => DoAddsNoneDue(s, c, now); Do(s, c, now)
    case CallHandle(now) => Handle(s, react, now)
  }

  function Run<T(==)>(calls: seq<Call<T>>, react: nat -> seq<Command<T>>): (s: State<T>)
    ensures Formed(s)
  {
    if calls == [] then State([], map[], 0, []) else Step(Run(calls[..|calls| - 1], react), calls[|calls| - 1], react)
  }

  lemma {:induction false} RunSound<T(!new)>(calls: seq<Call<T>>, react: nat -> seq<Command<T>>)
    ensures Sound(Run(calls, react))
  {
    if calls != [] {
      var s, call := Run(calls[..|calls| - 1], react), calls[|calls| - 1];
      RunSound(calls[..|calls| - 1], react);
      hide Sound;
      match call
      case CallDo(c, now) => DoSound(s, c, now);
      case CallHandle(now) => HandleSound(s, react, now);
    }
  }

  lemma {:induction false} LastOfAt<T>(log: seq<Event<T>>, t: T) returns (k: nat)
    requires LastOf(log, t).Some?
    ensures k < |log| && log[k] == LastOf(log, t).value && log[k].t == t
    ensures forall i :: k < i < |log| ==> log[i].t != t
    decreases |log|
  {
    if log[|log| - 1].t == t {
      k := |log| - 1;
    } else {
      k := LastOfAt(log[..|log| - 1], t);
    }
  }

  lemma {:induction false} HonestPrefix<T>(log: seq<Event<T>>, k: nat)
    requires Honest(log) && k <= |log|
    ensures Honest(log[..k])
    decreases |log|
  {
    if k == |log| {
      assert log[..k] == log;
    } else {
      HonestPrefix(log[..|log| - 1], k);
      assert log[..|log| - 1][..k] == log[..k];
    }
  }

  /** Whenever a timer fires, in any run, there is a start of it before; since that start it was neither stopped
      nor restarted nor fired, and its interval is over. So it fires at most once per start and never early. */
  lemma FiresOncePerStart<T(!new)>(calls: seq<Call<T>>, react: nat -> seq<Command<T>>, k: nat) returns (j: nat)
    requires k < |Run(calls, react).log| && Run(calls, react).log[k].Fired?
    ensures var log := Run(calls, react).log;
            && j < k && log[j].Started? && log[j].t == log[k].t
            && (forall i :: j < i < k ==> log[i].t != log[k].t)
            && Expired(Timer(log[j].at, log[j].interval), log[k].at)
  {
    RunSound(calls, react);
    j := StartBefore(Run(calls, react).log, k);
  }

  lemma StartBefore<T>(log: seq<Event<T>>, k: nat) returns (j: nat)
    requires Honest(log) && k < |log| && log[k].Fired?
    ensures j < k && log[j].Started? && log[j].t == log[k].t
    ensures forall i :: j < i < k ==> log[i].t != log[k].t
    ensures Expired(Timer(log[j].at, log[j].interval), log[k].at)
  {
    hide Expired;
    HonestPrefix(log, k + 1);
    assert log[..k + 1][..k] == log[..k];
    assert WaitsSince(log[..k], log[k].t);
    hide Honest;
    j := LastOfAt(log[..k], log[k].t);
  }

  lemma {:induction false} LastOfExtends<T>(log: seq<Event<T>>, more: seq<Event<T>>, t: T)
    requires forall i :: 0 <= i < |more| ==> more[i].t != t
    ensures LastOf(log + more, t) == LastOf(log, t)
    decreases |more|
  {
    if more == [] {
      assert log + more == log;
    } else {
      assert (log + more)[..|log + more| - 1] == log + more[..|more| - 1];
      LastOfExtends(log, more[..|more| - 1], t);
    }
  }

  lemma {:induction false} DoAllExtendsLog<T>(s: State<T>, cs: seq<Command<T>>, now: Uint32)
    ensures s.log <= DoAll(s, cs, now).log
  {
    if cs != [] {
      DoAllExtendsLog(s, cs[..|cs| - 1], now);
    }
  }

  lemma RoundExtendsLog<T>(s: State<T>, i: nat, react: nat -> seq<Command<T>>, now: Uint32)
    requires i < |s.list|
    ensures s.log <= Round(s, i, react, now).log
  {
    DoAllExtendsLog(Take(s, i, now).(calls := s.calls + 1), react(s.calls), now);
    assert s.log <= Take(s, i, now).log;
  }

  lemma {:induction false} HandleExtendsLog<T>(s: State<T>, react: nat -> seq<Command<T>>, now: Uint32)
    requires Formed(s)
    ensures s.log <= Handle(s, react, now).log
    decreases |Due(s, now)|
  {
    match FindFrom(s, 0, now)
    case None =>
    case Some(i) =>
      hide Formed, Due, Round, Expired;
      RoundLowersDue(s, i, react, now);
      RoundExtendsLog(s, i, react, now);
      HandleExtendsLog(Round(s, i, react, now), react, now);
  }

  /** The handler leaves no expired timer, and each one that was expired has fired, unless a callback got at it
      before. */
  lemma DueIsHandled<T(!new)>(calls: seq<Call<T>>, react: nat -> seq<Command<T>>, now: Uint32, t: T)
    requires t in Run(calls, react).list && Expired(Run(calls, react).timer[t], now)
    ensures var s, s' := Run(calls, react), Handle(Run(calls, react), react, now);
            && (forall x :: x in s'.list ==> !Expired(s'.timer[x], now))
            && s.log <= s'.log
            && exists k :: |s.log| <= k < |s'.log| && s'.log[k].t == t
  {
    var s := Run(calls, react);
    RunSound(calls, react);
    HandleSound(s, react, now);
    HandleExtendsLog(s, react, now);
    var s' := Handle(s, react, now);
    forall x | x in s'.list ensures !Expired(s'.timer[x], now) {
      assert x !in Due(s', now);
    }
    assert s'.log == s.log + s'.log[|s.log|..];
    assert t in s'.list <==> WaitsSince(s'.log, t);
    if forall k :: |s.log| <= k < |s'.log| ==> s'.log[k].t != t {
      LastOfExtends(s.log, s'.log[|s.log|..], t);
    }
  }
}
