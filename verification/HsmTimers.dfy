/**
 Which timer events a lapse delivers: in every millisecond the enabled timers whose period divides the counter, in
 ascending period; over a lapse each as often as there are multiples of its period.
 */
module HsmTimers {
  import opened Wrappers
  import opened HsmEvents
  import opened HsmTime

  /** The timer events in ascending period. */
  function TimerEvents(): seq<Event> {
    [Timer1ms, Timer10ms, Timer100ms, Timer1s, Timer10s, Timer1m]
  }

  /** In milliseconds. */
  function Period(e: Event): (p: nat)
    ensures p > 0
  {
    match e
    case Timer10ms => 10
    case Timer100ms => 100
    case Timer1s => 1000
    case Timer10s => 10_000
    case Timer1m => 60_000
    case _ => 1
  }

  predicate Enabled(mask: Mask, e: Event) {
    match e
    case Timer1ms => mask.ms1
    case Timer10ms => mask.ms10
    case Timer100ms => mask.ms100
    case Timer1s => mask.s1
    case Timer10s => mask.s10
    case Timer1m => mask.m1
    case _ => false
  }

  predicate Divides(e: Event, counter: nat) {
    counter % Period(e) == 0
  }

  /** Of these events the ones enabled whose period divides the counter. */
  function Due(events: seq<Event>, mask: Mask, counter: nat): seq<Event> {
    if events == [] then []
    else
      (if Enabled(mask, events[0]) && Divides(events[0], counter) then [events[0]] else [])
      + Due(events[1..], mask, counter)
  }

  /** The events go to the machine one after the other. */
  function Deliver<C(!new)>(m: Machine<C>, w: World<C>, events: seq<Event>): World<C>
    requires Terminating(m)
    decreases |events|
  {
    if events == [] then w else Deliver(m, HandleEvent(m, w, events[0]), events[1..])
  }

  lemma {:induction false} DueAre(events: seq<Event>, mask: Mask, counter: nat, e: Event)
    ensures e in Due(events, mask, counter) <==> e in events && Enabled(mask, e) && Divides(e, counter)
  {
    if events != [] {
      DueAre(events[1..], mask, counter, e);
      assert e in events <==> e == events[0] || e in events[1..];
    }
  }

  lemma {:induction false} DueAscend(events: seq<Event>, mask: Mask, counter: nat)
    requires forall i, j :: 0 <= i < j < |events| ==> Period(events[i]) < Period(events[j])
    ensures var due := Due(events, mask, counter);
            forall i, j :: 0 <= i < j < |due| ==> Period(due[i]) < Period(due[j])
  {
    if events != [] {
      DueAscend(events[1..], mask, counter);
      var rest := Due(events[1..], mask, counter);
      forall j | 0 <= j < |rest| ensures Period(events[0]) < Period(rest[j]) {
        DueAre(events[1..], mask, counter, rest[j]);
        var i :| 0 <= i < |events[1..]| && events[1..][i] == rest[j];
        assert events[i + 1] == rest[j];
      }
    }
  }

  /** The events of one millisecond: the enabled ones whose period divides the counter, in ascending period. */
  lemma DueEvents(mask: Mask, counter: nat)
    ensures var due := Due(TimerEvents(), mask, counter);
            && (forall e :: e in due <==> Enabled(mask, e) && Divides(e, counter))
            && (forall i, j :: 0 <= i < j < |due| ==> Period(due[i]) < Period(due[j]))
  {
    DueAscend(TimerEvents(), mask, counter);
    forall e ensures e in Due(TimerEvents(), mask, counter) <==> Enabled(mask, e) && Divides(e, counter) {
      DueAre(TimerEvents(), mask, counter, e);
      assert Enabled(mask, e) ==> e in TimerEvents();
    }
  }

  // ---------------------------------------------------------------- one millisecond

  lemma DeliverFirst<C(!new)>(m: Machine<C>, w: World<C>, ready: bool, e: Event, rest: seq<Event>)
    requires Terminating(m)
    ensures Deliver(m, w, If(ready, e) + rest) == Deliver(m, FireIf(m, w, ready, e), rest)
  {
    hide HandleEvent, Terminating;
    if ready {
      assert ([e] + rest)[1..] == rest;
    } else {
      assert [] + rest == rest;
    }
  }

  lemma FireDelivers<C(!new)>(m: Machine<C>, w: World<C>)
    requires Terminating(m)
    ensures Fire(m, w, Ready(w.h)) == Deliver(m, w, Due(TimerEvents(), w.h.mask, w.h.counter))
  {
    var ready := Ready(w.h);
    DueSix(w.h);
    hide FireIf, Deliver, Terminating, Due, Ready, TimerEvents;
    var w1 := FireIf(m, w, ready.ms1, Timer1ms);
    var w2 := FireIf(m, w1, ready.ms10, Timer10ms);
    var w3 := FireIf(m, w2, ready.ms100, Timer100ms);
    var w4 := FireIf(m, w3, ready.s1, Timer1s);
    var w5 := FireIf(m, w4, ready.s10, Timer10s);
    var e6 := If(ready.m1, Timer1m) + [];
    var e5 := If(ready.s10, Timer10s) + e6;
    var e4 := If(ready.s1, Timer1s) + e5;
    var e3 := If(ready.ms100, Timer100ms) + e4;
    var e2 := If(ready.ms10, Timer10ms) + e3;
    hide If;
    DeliverFirst(m, w, ready.ms1, Timer1ms, e2);
    DeliverFirst(m, w1, ready.ms10, Timer10ms, e3);
    DeliverFirst(m, w2, ready.ms100, Timer100ms, e4);
    DeliverFirst(m, w3, ready.s1, Timer1s, e5);
    DeliverFirst(m, w4, ready.s10, Timer10s, e6);
    DeliverFirst(m, w5, ready.m1, Timer1m, []);
    DeliverNone(m, FireIf(m, w5, ready.m1, Timer1m));
  }

  /** The ready timers are those whose events are due. */
  lemma DueSix<C>(h: Hsm<C>)
    ensures var r := Ready(h);
            Due(TimerEvents(), h.mask, h.counter) ==
            If(r.ms1, Timer1ms) + (If(r.ms10, Timer10ms) + (If(r.ms100, Timer100ms) + (If(r.s1, Timer1s)
              + (If(r.s10, Timer10s) + (If(r.m1, Timer1m) + [])))))
  {
    var (mask, c) := (h.mask, h.counter);
    var none: seq<Event> := [];
    var e5 := [Timer1m] + none;
    var e4 := [Timer10s] + e5;
    var e3 := [Timer1s] + e4;
    var e2 := [Timer100ms] + e3;
    var e1 := [Timer10ms] + e2;
    assert TimerEvents() == [Timer1ms] + e1;
    assert Due([], mask, c) == [];
    ReadyAre(h);
    hide Due, Ready, Enabled, Divides, If, TimerEvents;
    DueFirst(Timer1ms, e1, mask, c);
    DueFirst(Timer10ms, e2, mask, c);
    DueFirst(Timer100ms, e3, mask, c);
    DueFirst(Timer1s, e4, mask, c);
    DueFirst(Timer10s, e5, mask, c);
    DueFirst(Timer1m, none, mask, c);
  }

  function If(ready: bool, e: Event): seq<Event> {
    if ready then [e] else []
  }

  lemma ReadyAre<C>(h: Hsm<C>)
    ensures var (r, due) := (Ready(h), (e: Event) => Enabled(h.mask, e) && Divides(e, h.counter));
            && r.ms1 == due(Timer1ms) && r.ms10 == due(Timer10ms) && r.ms100 == due(Timer100ms)
            && r.s1 == due(Timer1s) && r.s10 == due(Timer10s) && r.m1 == due(Timer1m)
  {
  }

  lemma DueFirst(e: Event, rest: seq<Event>, mask: Mask, counter: nat)
    ensures Due([e] + rest, mask, counter) == If(Enabled(mask, e) && Divides(e, counter), e) + Due(rest, mask, counter)
  {
    assert ([e] + rest)[1..] == rest;
  }

  lemma DeliverNone<C(!new)>(m: Machine<C>, w: World<C>)
    requires Terminating(m)
    ensures Deliver(m, w, []) == w
  {
  }

  /** One millisecond moves the counter on by one and delivers the events due there. */
  lemma OneMillisecond<C(!new)>(m: Machine<C>, w: World<C>)
    requires Terminating(m)
    ensures var c := (w.h.counter + 1) % m.range;
            HandleTime(m, w, 1) == Deliver(m, w.(h := w.h.(counter := c)), Due(TimerEvents(), w.h.mask, c))
  {
    hide Fire, Deliver, Terminating, Ready;
    var w1 := Advance(m, w, 1);
    FireDelivers(m, w1);
    assert HandleTime(m, Jump(m, w, 1), 0) == Jump(m, w, 1);
  }

  // ---------------------------------------------------------------- a lapse

  /** Handlers leave state and timers alone; they may pass events up and change their container. */
  ghost predicate Steady<C(!new)>(m: Machine<C>) {
    forall h: Hsm<C>, s: int, ev: Event ::
      var r := m.handler(h, s, ev); !r.answer.Trans? && !r.reset && r.mask == h.mask
  }

  /** How often the event was delivered: every delivery ends with an answer other than HSM_SUPER. */
  function Delivered<C>(trace: seq<Visit<C>>, e: Event): nat {
    if trace == [] then 0
    else
      Delivered(trace[..|trace| - 1], e)
      + if Last(trace).event == e && !Last(trace).answer.Super? then 1 else 0
  }

  lemma DeliveredMore<C>(trace: seq<Visit<C>>, v: Visit<C>, e: Event)
    ensures Delivered(trace + [v], e) ==
            Delivered(trace, e) + if v.event == e && !v.answer.Super? then 1 else 0
  {
    assert (trace + [v])[..|trace|] == trace;
  }

  lemma {:induction false} SteadyBubble<C(!new)>(m: Machine<C>, w: World<C>, ev: Event, e: Event)
    requires Terminating(m) && Steady(m)
    ensures var w' := Bubble(m, w, ev);
            && w'.h.counter == w.h.counter && w'.h.mask == w.h.mask && w'.h.current == w.h.current
            && !Last(w'.trace).answer.Trans?
            && Delivered(w'.trace, e) == Delivered(w.trace, e) + if ev == e then 1 else 0
    decreases m.superRank(w.h, ev)
  {
    hide Delivered;
    var w1 := Call(m, w, w.h.state, ev);
    DeliveredMore(w.trace, Last(w1.trace), e);
    SuperFalls(m, w, ev);
    if Last(w1.trace).answer.Super? {
      hide Call, Terminating;
      SteadyBubble(m, w1, ev, e);
    }
  }

  lemma SteadyEvent<C(!new)>(m: Machine<C>, w: World<C>, ev: Event, e: Event)
    requires Terminating(m) && Steady(m)
    ensures var w' := HandleEvent(m, w, ev);
            && w'.h.counter == w.h.counter && w'.h.mask == w.h.mask && w'.h.state == w.h.state
            && Delivered(w'.trace, e) == Delivered(w.trace, e) + if ev == e then 1 else 0
  {
    hide Delivered, Terminating, Steady, Bubble;
    SteadyBubble(m, w.(h := w.h.(current := w.h.state)), ev, e);
  }

  lemma {:induction false} SteadyDeliver<C(!new)>(m: Machine<C>, w: World<C>, events: seq<Event>, e: Event)
    requires Terminating(m) && Steady(m)
    ensures var w' := Deliver(m, w, events);
            && w'.h.counter == w.h.counter && w'.h.mask == w.h.mask && w'.h.state == w.h.state
            && Delivered(w'.trace, e) == Delivered(w.trace, e) + multiset(events)[e]
    decreases |events|
  {
    hide Delivered, Terminating, Steady, HandleEvent;
    if events != [] {
      SteadyEvent(m, w, events[0], e);
      SteadyDeliver(m, HandleEvent(m, w, events[0]), events[1..], e);
      assert events == [events[0]] + events[1..];
    }
  }

  lemma {:induction false} DueOften(events: seq<Event>, mask: Mask, counter: nat, e: Event)
    ensures multiset(Due(events, mask, counter))[e] ==
            if Enabled(mask, e) && Divides(e, counter) then multiset(events)[e] else 0
  {
    hide Enabled, Period;
    if events != [] {
      DueOften(events[1..], mask, counter, e);
      assert events == [events[0]] + events[1..];
    }
  }

  lemma DueOnce(mask: Mask, counter: nat, e: Event)
    ensures multiset(Due(TimerEvents(), mask, counter))[e] ==
            if Enabled(mask, e) && Divides(e, counter) then 1 else 0
  {
    DueOften(TimerEvents(), mask, counter, e);
    assert Enabled(mask, e) ==> multiset(TimerEvents())[e] == 1;
  }

  /** The multiples of the period of e among 1 to c. */
  function Multiples(c: nat, e: Event): nat {
    c / Period(e)
  }

  lemma NextMultiple(c: nat, e: Event)
    ensures Multiples(c + 1, e) == Multiples(c, e) + if Divides(e, c + 1) then 1 else 0
  {
  }

  lemma SteadyMillisecond<C(!new)>(m: Machine<C>, w: World<C>, e: Event)
    requires Terminating(m) && Steady(m) && w.h.counter + 1 < m.range
    ensures var w' := HandleTime(m, w, 1);
            var c := w.h.counter + 1;
            && w'.h.counter == c && w'.h.mask == w.h.mask && w'.h.state == w.h.state
            && Delivered(w'.trace, e) == Delivered(w.trace, e)
                 + if Enabled(w.h.mask, e) then Multiples(c, e) - Multiples(c - 1, e) else 0
  {
    hide Delivered, Terminating, Steady, Deliver, HandleTime, Enabled, Due, Divides, Multiples;
    var c := w.h.counter + 1;
    ModOnce(c, m.range);
    OneMillisecond(m, w);
    SteadyDeliver(m, w.(h := w.h.(counter := c)), Due(TimerEvents(), w.h.mask, c), e);
    DueOnce(w.h.mask, c, e);
    NextMultiple(c - 1, e);
  }

  lemma {:induction false} SteadySteps<C(!new)>(m: Machine<C>, w: World<C>, n: nat, e: Event)
    requires Terminating(m) && Steady(m) && w.h.counter + n < m.range
    ensures var w' := OneByOne(m, w, n);
            var c := w.h.counter;
            && w'.h.counter == c + n && w'.h.mask == w.h.mask && w'.h.state == w.h.state
            && Delivered(w'.trace, e) == Delivered(w.trace, e)
                 + if Enabled(w.h.mask, e) then Multiples(c + n, e) - Multiples(c, e) else 0
  {
    hide Delivered, Terminating, Steady, HandleTime, Enabled, Multiples;
    if n != 0 {
      SteadySteps(m, w, n - 1, e);
      SteadyMillisecond(m, OneByOne(m, w, n - 1), e);
    }
  }

  /** While handlers leave state and timers alone, a lapse of n milliseconds that stays below the overrun delivers
      each enabled event as often as there are multiples of its period among the n counter values, however far it
      is jumped. */
  lemma LapseDelivers<C(!new)>(m: Machine<C>, w: World<C>, n: nat, e: Event)
    requires Terminating(m) && Steady(m) && w.h.counter + n < m.range
    ensures var w' := HandleTime(m, w, n);
            var c := w.h.counter;
            && w'.h.counter == c + n && w'.h.mask == w.h.mask && w'.h.state == w.h.state
            && Delivered(w'.trace, e) == Delivered(w.trace, e)
                 + if Enabled(w.h.mask, e) then Multiples(c + n, e) - Multiples(c, e) else 0
  {
    hide Delivered, Terminating, Steady, HandleTime, Enabled, Multiples, OneByOne;
    TickingExact(m, w, n);
    SteadySteps(m, w, n, e);
  }
}
