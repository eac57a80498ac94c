/**
 hsm_handle_time of source/core/hsm.c on values: it jumps from one timer boundary to the next. The jumps are
 invisible: splitting a lapse, down to single milliseconds, changes neither the handler calls nor the final
 state, unless a split falls inside a jump, exactly on the overrun of the counter, with a timer enabled.
 */
module HsmTime {
  import opened Wrappers
  import opened HsmEvents

  /** Milliseconds to the next boundary of the finest enabled timer, or of a second. */
  function Ticks<C>(h: Hsm<C>): (t: nat)
    ensures 1 <= t <= 1000
  {
    if h.mask.ms1 then 1
    else if h.mask.ms10 then 10 - h.counter % 10
    else if h.mask.ms100 then 100 - h.counter % 100
    else 1000 - h.counter % 1000
  }

  /** The enabled timers whose boundary the counter is on. */
  function Ready<C>(h: Hsm<C>): Mask {
    Mask(h.mask.ms1, h.mask.ms10 && h.counter % 10 == 0, h.mask.ms100 && h.counter % 100 == 0,
         h.mask.s1 && h.counter % 1000 == 0, h.mask.s10 && h.counter % 10000 == 0, h.mask.m1 && h.counter % 60000 == 0)
  }

  function Advance<C>(m: Machine<C>, w: World<C>, ticks: nat): World<C> {
    w.(h := w.h.(counter := (w.h.counter + ticks) % m.range))
  }

  function FireIf<C(!new)>(m: Machine<C>, w: World<C>, ready: bool, ev: Event): World<C>
    requires Terminating(m)
  {
    if ready then HandleEvent(m, w, ev) else w
  }

  /** The events of the timers found ready, finest first. */
  function Fire<C(!new)>(m: Machine<C>, w: World<C>, ready: Mask): World<C>
    requires Terminating(m)
  {
    var w1 := FireIf(m, w, ready.ms1, Timer1ms);
    var w2 := FireIf(m, w1, ready.ms10, Timer10ms);
    var w3 := FireIf(m, w2, ready.ms100, Timer100ms);
    var w4 := FireIf(m, w3, ready.s1, Timer1s);
    var w5 := FireIf(m, w4, ready.s10, Timer10s);
    FireIf(m, w5, ready.m1, Timer1m)
  }

  /** One round of the loop: hsm_timer_check and the events it finds. */
  function Jump<C(!new)>(m: Machine<C>, w: World<C>, ticks: nat): World<C>
    requires Terminating(m)
  {
    var w1 := Advance(m, w, ticks);
    Fire(m, w1, Ready(w1.h))
  }

  /** hsm_handle_time */
  function HandleTime<C(!new)>(m: Machine<C>, w: World<C>, lapse: nat): World<C>
    requires Terminating(m)
    decreases lapse
  {
    if lapse == 0 then w
    else
      var ticks := Min(Ticks(w.h), lapse);
      HandleTime(m, Jump(m, w, ticks), lapse - ticks)
  }

  // ---------------------------------------------------------------- the counter

  lemma {:induction false} BubbleCounter<C(!new)>(m: Machine<C>, w: World<C>, ev: Event)
    requires Terminating(m)
    ensures Bubble(m, w, ev).h.counter <= w.h.counter
    decreases m.superRank(w.h, ev)
  {
    var w1 := Call(m, w, w.h.state, ev);
    if Last(w1.trace).answer.Super? {
      BubbleCounter(m, w1, ev);
    }
  }

  lemma {:induction false} LeaveCounter<C>(m: Machine<C>, w: World<C>)
    ensures Leave(m, w).h.counter <= w.h.counter
    decreases w.h.unwind
  {
    if w.h.unwind > 0 {
      var w1 := Call(m, w, w.h.state, ExitState);
      var depth := if Last(w1.trace).answer.Super? then w.h.unwind - 1 else 0;
      LeaveCounter(m, w1.(h := w1.h.(unwind := depth)));
    }
  }

  lemma {:induction false} EnterCounter<C(!new)>(m: Machine<C>, w: World<C>)
    requires Terminating(m)
    ensures Enter(m, w).h.counter == 0
    decreases m.enterRank(w.h)
  {
    var w1 := Call(m, w.(h := Entering(w.h)), w.h.state, EnterState);
    if Last(w1.trace).answer.Trans? && w1.h.current != w1.h.state {
      EnterCounter(m, w1);
    }
  }

  /** Handlers and transitions can only set the counter back to 0. */
  lemma HandleEventCounter<C(!new)>(m: Machine<C>, w: World<C>, ev: Event)
    requires Terminating(m)
    ensures HandleEvent(m, w, ev).h.counter <= w.h.counter
  {
    var w0 := w.(h := w.h.(current := w.h.state));
    BubbleCounter(m, w0, ev);
    var w1 := Bubble(m, w0, ev);
    if Last(w1.trace).answer.Trans? && w1.h.current != w1.h.state {
      var left := Leave(m, w1.(h := w1.h.(state := w1.h.current)));
      EnterCounter(m, left.(h := left.h.(state := w1.h.state)));
    }
  }

  lemma FireCounter<C(!new)>(m: Machine<C>, w: World<C>, ready: Mask)
    requires Terminating(m)
    ensures Fire(m, w, ready).h.counter <= w.h.counter
  {
    hide HandleEvent, Terminating;
    var w1 := FireIf(m, w, ready.ms1, Timer1ms);
    var w2 := FireIf(m, w1, ready.ms10, Timer10ms);
    var w3 := FireIf(m, w2, ready.ms100, Timer100ms);
    var w4 := FireIf(m, w3, ready.s1, Timer1s);
    var w5 := FireIf(m, w4, ready.s10, Timer10s);
    HandleEventCounter(m, w, Timer1ms);
    HandleEventCounter(m, w1, Timer10ms);
    HandleEventCounter(m, w2, Timer100ms);
    HandleEventCounter(m, w3, Timer1s);
    HandleEventCounter(m, w4, Timer10s);
    HandleEventCounter(m, w5, Timer1m);
  }

  // ---------------------------------------------------------------- jumps are invisible

  lemma ModStep10(c: nat, a: nat)
    requires a < 10 - c % 10
    ensures (c + a) % 10 == c % 10 + a
  {
    assert c + a == 10 * (c / 10) + (c % 10 + a);
    assert (c + a) / 10 == c / 10;
  }

  lemma ModStep100(c: nat, a: nat)
    requires a < 100 - c % 100
    ensures (c + a) % 100 == c % 100 + a
  {
    assert c + a == 100 * (c / 100) + (c % 100 + a);
    assert (c + a) / 100 == c / 100;
  }

  lemma ModStep1000(c: nat, a: nat)
    requires a < 1000 - c % 1000
    ensures (c + a) % 1000 == c % 1000 + a
  {
    assert c + a == 1000 * (c / 1000) + (c % 1000 + a);
    assert (c + a) / 1000 == c / 1000;
  }

  /** The boundaries of a coarser timer are boundaries of a finer one. */
  lemma NoCoarserBoundary(c: nat)
    ensures c % 10 != 0 ==> c % 100 != 0
    ensures c % 100 != 0 ==> c % 1000 != 0
    ensures c % 1000 != 0 ==> c % 10000 != 0 && c % 60000 != 0
  {
    if c % 100 == 0 {
      assert c == 10 * (10 * (c / 100));
    }
    if c % 1000 == 0 {
      assert c == 100 * (10 * (c / 1000));
    }
    if c % 10000 == 0 {
      assert c == 1000 * (10 * (c / 10000));
    }
    if c % 60000 == 0 {
      assert c == 1000 * (60 * (c / 60000));
    }
  }

  lemma ModOnce(x: nat, n: nat)
    requires 0 < n && x < 2 * n
    ensures x % n == if x < n then x else x - n
  {
    var q := x / n;
    assert x == n * q + x % n;
    assert q >= 2 ==> n * q >= 2 * n;
  }

  lemma CounterAfter<C>(m: Machine<C>, w: World<C>, a: nat)
    requires w.h.counter < m.range && a <= 1000
    ensures Advance(m, w, a).h.counter ==
            if w.h.counter + a < m.range then w.h.counter + a else w.h.counter + a - m.range
  {
    ModOnce(w.h.counter + a, m.range);
  }

  /** Strictly between two boundaries no timer is ready, unless the counter has just overrun to 0; without an
      overrun the distance to the next boundary shrinks by what has passed. */
  lemma BetweenBoundaries<C>(m: Machine<C>, w: World<C>, a: nat)
    requires w.h.counter < m.range && 0 < a < Ticks(w.h) && w.h.counter + a != m.range
    ensures Ready(Advance(m, w, a).h) == DISABLED
    ensures w.h.counter + a < m.range ==> Ticks(Advance(m, w, a).h) == Ticks(w.h) - a
  {
    CounterAfter(m, w, a);
    hide Advance;
    if w.h.counter + a < m.range {
      NoCoarserBoundary(w.h.counter + a);
      if w.h.mask.ms10 {
        ModStep10(w.h.counter, a);
      } else if w.h.mask.ms100 {
        ModStep100(w.h.counter, a);
      } else {
        ModStep1000(w.h.counter, a);
      }
    } else {
      PastOverrun(m, w, a);
    }
  }

  /** After an overrun inside a jump the counter is below the period of the finest timer. So the boundary the jump
      was for is none any more; the next one is later. */
  lemma PastOverrun<C>(m: Machine<C>, w: World<C>, a: nat)
    requires w.h.counter < m.range < w.h.counter + Ticks(w.h)
    requires 0 < a <= Ticks(w.h) && m.range <= w.h.counter + a
    ensures Advance(m, w, a).h.counter == w.h.counter + a - m.range
    ensures Ready(Advance(m, w, a).h) == if w.h.counter + a == m.range then w.h.mask else DISABLED
    ensures Ticks(Advance(m, w, a).h) > Ticks(w.h) - a
  {
    CounterAfter(m, w, a);
    NoCoarserBoundary(w.h.counter + a - m.range);
  }

  lemma NothingFires<C(!new)>(m: Machine<C>, w: World<C>)
    requires Terminating(m)
    ensures Fire(m, w, DISABLED) == w
  {
  }

  /** A jump that reaches no ready timer only moves the counter. */
  lemma QuietJump<C(!new)>(m: Machine<C>, w: World<C>, a: nat)
    requires Terminating(m) && 0 < a <= Ticks(w.h) && Ready(Advance(m, w, a).h) == DISABLED
    ensures Jump(m, w, a) == Advance(m, w, a) && HandleTime(m, w, a) == Advance(m, w, a)
  {
    hide Fire, Terminating, Ready, Advance, Ticks;
    NothingFires(m, Advance(m, w, a));
    assert HandleTime(m, Jump(m, w, a), 0) == Jump(m, w, a);
  }

  lemma AdvanceTwice<C>(m: Machine<C>, w: World<C>, a: nat, b: nat)
    requires w.h.counter < m.range && a + b <= 1000
    ensures Advance(m, Advance(m, w, a), b) == Advance(m, w, a + b)
  {
    CounterAfter(m, w, a);
    CounterAfter(m, Advance(m, w, a), b);
    CounterAfter(m, w, a + b);
    hide Advance;
    assert Advance(m, Advance(m, w, a), b).h == Advance(m, w, a + b).h;
  }

  /** Stopping before the next boundary and going on is going on, across the overrun of the counter too; only a
      stop on the overrun itself, with a timer enabled, is not covered. */
  lemma StopShort<C(!new)>(m: Machine<C>, w: World<C>, a: nat, b: nat)
    requires Terminating(m) && w.h.counter < m.range && 0 < a < Ticks(w.h)
    requires w.h.counter + a != m.range || w.h.mask == DISABLED
    ensures HandleTime(m, w, a) == Advance(m, w, a)
    ensures HandleTime(m, w, a + b) == HandleTime(m, Advance(m, w, a), b)
  {
    if w.h.counter + a < m.range {
      StopBefore(m, w, a, b);
    } else {
      StopPast(m, w, a, b);
    }
  }

  lemma StopBefore<C(!new)>(m: Machine<C>, w: World<C>, a: nat, b: nat)
    requires Terminating(m) && 0 < a < Ticks(w.h) && w.h.counter + a < m.range
    ensures HandleTime(m, w, a) == Advance(m, w, a)
    ensures HandleTime(m, w, a + b) == HandleTime(m, Advance(m, w, a), b)
  {
    hide Fire, Terminating, Ready, Advance;
    BetweenBoundaries(m, w, a);
    QuietJump(m, w, a);
    hide Ticks;
    var w1 := Advance(m, w, a);
    if b != 0 {
      var t := Min(Ticks(w.h), a + b);
      assert Min(Ticks(w1.h), b) == t - a;
      AdvanceTwice(m, w, a, t - a);
      assert Jump(m, w1, t - a) == Jump(m, w, t);
    }
  }

  lemma StopPast<C(!new)>(m: Machine<C>, w: World<C>, a: nat, b: nat)
    requires Terminating(m) && w.h.counter < m.range <= w.h.counter + a && 0 < a < Ticks(w.h)
    requires w.h.counter + a != m.range || w.h.mask == DISABLED
    ensures HandleTime(m, w, a) == Advance(m, w, a)
    ensures HandleTime(m, w, a + b) == HandleTime(m, Advance(m, w, a), b)
  {
    hide Fire, Terminating, Ready, Advance, Jump;
    var t := Ticks(w.h);
    var w1 := Advance(m, w, a);
    PastOverrun(m, w, a);
    QuietJump(m, w, a);
    if a + b < t {
      PastOverrun(m, w, a + b);
      QuietJump(m, w, a + b);
      AdvanceTwice(m, w, a, b);
      if b != 0 {
        assert w1.h.mask == w.h.mask by { MaskKept(m, w, a); }
        BetweenBoundaries(m, w1, b);
        QuietJump(m, w1, b);
      }
    } else {
      PastOverrun(m, w, t);
      QuietJump(m, w, t);
      AdvanceTwice(m, w, a, t - a);
      StopBefore(m, w1, t - a, a + b - t);
    }
  }

  lemma MaskKept<C>(m: Machine<C>, w: World<C>, a: nat)
    ensures Advance(m, w, a).h.mask == w.h.mask
  {
  }

  // ---------------------------------------------------------------- where a lapse may be split

  /** A split after a milliseconds falls inside a jump, exactly on the overrun, with a timer enabled. */
  predicate HitsOverrun<C(!new)>(m: Machine<C>, w: World<C>, a: nat)
    requires Terminating(m)
    decreases a
  {
    if a < Ticks(w.h) then a > 0 && w.h.counter + a == m.range && w.h.mask != DISABLED
    else HitsOverrun(m, Jump(m, w, Ticks(w.h)), a - Ticks(w.h))
  }

  lemma JumpCounter<C(!new)>(m: Machine<C>, w: World<C>)
    requires Terminating(m) && w.h.counter < m.range
    ensures Jump(m, w, Ticks(w.h)).h.counter < m.range
    ensures Jump(m, w, Ticks(w.h)).h.counter <= w.h.counter + Ticks(w.h)
  {
    hide Fire, Terminating, Ready, Ticks;
    var w1 := Advance(m, w, Ticks(w.h));
    CounterAfter(m, w, Ticks(w.h));
    FireCounter(m, w1, Ready(w1.h));
  }

  /** Anywhere else it is invisible. */
  lemma {:induction false} SplitExact<C(!new)>(m: Machine<C>, w: World<C>, a: nat, b: nat)
    requires Terminating(m) && w.h.counter < m.range && !HitsOverrun(m, w, a)
    ensures HandleTime(m, w, a + b) == HandleTime(m, HandleTime(m, w, a), b)
    decreases a
  {
    hide Jump, Terminating, Ticks;
    var t := Ticks(w.h);
    if a == 0 {
    } else if a < t {
      StopShort(m, w, a, b);
    } else {
      JumpCounter(m, w);
      SplitExact(m, Jump(m, w, t), a - t, b);
    }
  }

  lemma EventSeen<C(!new)>(m: Machine<C>, w: World<C>, ev: Event)
    requires Terminating(m)
    ensures |w.trace| < |HandleEvent(m, w, ev).trace|
  {
    hide Terminating;
    var w1 := Bubble(m, w.(h := w.h.(current := w.h.state)), ev);
    if Last(w1.trace).answer.Trans? && w1.h.current != w1.h.state {
      var w2 := w1.(h := w1.h.(state := w1.h.current));
      LeaveTrace(m, w2);
      var left := Leave(m, w2);
      EnterTrace(m, left.(h := left.h.(state := w1.h.state)));
    }
  }

  lemma {:induction false} LeaveTrace<C>(m: Machine<C>, w: World<C>)
    ensures |w.trace| <= |Leave(m, w).trace|
    decreases w.h.unwind
  {
    if w.h.unwind > 0 {
      var w1 := Call(m, w, w.h.state, ExitState);
      var depth := if Last(w1.trace).answer.Super? then w.h.unwind - 1 else 0;
      LeaveTrace(m, w1.(h := w1.h.(unwind := depth)));
    }
  }

  lemma {:induction false} EnterTrace<C(!new)>(m: Machine<C>, w: World<C>)
    requires Terminating(m)
    ensures |w.trace| <= |Enter(m, w).trace|
    decreases m.enterRank(w.h)
  {
    EnterFalls(m, w);
    var w1 := Call(m, w.(h := Entering(w.h)), w.h.state, EnterState);
    if Last(w1.trace).answer.Trans? && w1.h.current != w1.h.state {
      EnterTrace(m, w1);
    }
  }

  lemma FireIfSeen<C(!new)>(m: Machine<C>, w: World<C>, ready: bool, ev: Event)
    requires Terminating(m)
    ensures |w.trace| + (if ready then 1 else 0) <= |FireIf(m, w, ready, ev).trace|
  {
    hide HandleEvent, Terminating;
    if ready {
      EventSeen(m, w, ev);
    }
  }

  lemma FireSeen<C(!new)>(m: Machine<C>, w: World<C>, ready: Mask)
    requires Terminating(m)
    ensures |w.trace| + (if ready == DISABLED then 0 else 1) <= |Fire(m, w, ready).trace|
  {
    hide FireIf, Terminating;
    var w1 := FireIf(m, w, ready.ms1, Timer1ms);
    var w2 := FireIf(m, w1, ready.ms10, Timer10ms);
    var w3 := FireIf(m, w2, ready.ms100, Timer100ms);
    var w4 := FireIf(m, w3, ready.s1, Timer1s);
    var w5 := FireIf(m, w4, ready.s10, Timer10s);
    FireIfSeen(m, w, ready.ms1, Timer1ms);
    FireIfSeen(m, w1, ready.ms10, Timer10ms);
    FireIfSeen(m, w2, ready.ms100, Timer100ms);
    FireIfSeen(m, w3, ready.s1, Timer1s);
    FireIfSeen(m, w4, ready.s10, Timer10s);
    FireIfSeen(m, w5, ready.m1, Timer1m);
  }

  lemma {:induction false} LapseSeen<C(!new)>(m: Machine<C>, w: World<C>, n: nat)
    requires Terminating(m)
    ensures |w.trace| <= |HandleTime(m, w, n).trace|
    decreases n
  {
    hide Terminating, Fire, Ready, Ticks;
    if n != 0 {
      var t := Min(Ticks(w.h), n);
      var w1 := Advance(m, w, t);
      FireSeen(m, w1, Ready(w1.h));
      LapseSeen(m, Jump(m, w, t), n - t);
    }
  }

  /** A split on the overrun shows at once: the timers fire there, which they do not when the jump passes over. */
  lemma {:induction false} SplitSeen<C(!new)>(m: Machine<C>, w: World<C>, a: nat)
    requires Terminating(m) && w.h.counter < m.range && HitsOverrun(m, w, a)
    ensures |HandleTime(m, w, a + 1).trace| < |HandleTime(m, HandleTime(m, w, a), 1).trace|
    decreases a
  {
    hide Terminating, Jump, Ticks, Ready;
    if a < Ticks(w.h) {
      StopOnOverrun(m, w, a);
      LapseSeen(m, HandleTime(m, w, a), 1);
    } else {
      JumpCounter(m, w);
      SplitSeen(m, Jump(m, w, Ticks(w.h)), a - Ticks(w.h));
    }
  }

  lemma StopOnOverrun<C(!new)>(m: Machine<C>, w: World<C>, a: nat)
    requires Terminating(m) && w.h.counter < m.range == w.h.counter + a && 0 < a < Ticks(w.h)
    ensures HandleTime(m, w, a) == Fire(m, Advance(m, w, a), w.h.mask)
    ensures HandleTime(m, w, a + 1) == Advance(m, w, a + 1)
    ensures w.h.mask != DISABLED ==> |HandleTime(m, w, a).trace| > |HandleTime(m, w, a + 1).trace|
  {
    hide Fire, Terminating, Advance, Ready, Ticks;
    PastOverrun(m, w, a);
    PastOverrun(m, w, a + 1);
    QuietJump(m, w, a + 1);
    assert HandleTime(m, Jump(m, w, a), 0) == Jump(m, w, a);
    FireSeen(m, Advance(m, w, a), w.h.mask);
    TraceKept(m, w, a);
    TraceKept(m, w, a + 1);
  }

  lemma TraceKept<C>(m: Machine<C>, w: World<C>, a: nat)
    ensures Advance(m, w, a).trace == w.trace
  {
  }

  /** Handling a lapse that starts with a milliseconds at once is handling these first, whatever follows. */
  ghost predicate Invisible<C(!new)>(m: Machine<C>, w: World<C>, a: nat)
    requires Terminating(m)
  {
    forall b: nat :: HandleTime(m, w, a + b) == HandleTime(m, HandleTime(m, w, a), b)
  }

  /** For every machine: the split is invisible exactly if it does not hit the overrun. */
  lemma BatchingExactIff<C(!new)>(m: Machine<C>, w: World<C>, a: nat)
    requires Terminating(m) && w.h.counter < m.range
    ensures Invisible(m, w, a) <==> !HitsOverrun(m, w, a)
  {
    hide HandleTime, Terminating, HitsOverrun;
    if HitsOverrun(m, w, a) {
      SplitSeen(m, w, a);
      assert !(HandleTime(m, w, a + 1) == HandleTime(m, HandleTime(m, w, a), 1));
    } else {
      forall b: nat ensures HandleTime(m, w, a + b) == HandleTime(m, HandleTime(m, w, a), b) {
        SplitExact(m, w, a, b);
      }
    }
  }

  /** Before the next boundary that takes no more than a look at the counter. */
  lemma OneJumpIff<C(!new)>(m: Machine<C>, w: World<C>, a: nat)
    requires Terminating(m) && w.h.counter < m.range && 0 < a < Ticks(w.h)
    ensures Invisible(m, w, a) <==> w.h.counter + a != m.range || w.h.mask == DISABLED
  {
    hide Invisible, Terminating, Ticks;
    BatchingExactIff(m, w, a);
  }

  lemma {:induction false} BelowRange<C(!new)>(m: Machine<C>, w: World<C>, a: nat)
    requires Terminating(m) && w.h.counter + a < m.range
    ensures !HitsOverrun(m, w, a)
    decreases a
  {
    hide Terminating, Jump, Ticks;
    if a >= Ticks(w.h) {
      JumpCounter(m, w);
      BelowRange(m, Jump(m, w, Ticks(w.h)), a - Ticks(w.h));
    }
  }

  /** Handling a lapse at once is handling it in two parts, same handler calls and same final state, when the first
      part stays below the overrun; the second may be of any length. */
  lemma BatchingExact<C(!new)>(m: Machine<C>, w: World<C>, a: nat, b: nat)
    requires Terminating(m) && w.h.counter + a < m.range
    ensures HandleTime(m, w, a + b) == HandleTime(m, HandleTime(m, w, a), b)
  {
    hide HandleTime, Terminating, HitsOverrun;
    BelowRange(m, w, a);
    SplitExact(m, w, a, b);
  }

  /** n calls with one millisecond each. */
  function OneByOne<C(!new)>(m: Machine<C>, w: World<C>, n: nat): World<C>
    requires Terminating(m)
  {
    if n == 0 then w else HandleTime(m, OneByOne(m, w, n - 1), 1)
  }

  lemma OneByOneUnfolds<C(!new)>(m: Machine<C>, w: World<C>, n: nat)
    requires Terminating(m)
    ensures n == 0 ==> OneByOne(m, w, n) == w == HandleTime(m, w, n)
    ensures n > 0 ==> OneByOne(m, w, n) == HandleTime(m, OneByOne(m, w, n - 1), 1)
  {
    hide Terminating, Jump;
  }

  lemma {:induction false} TickingSteps<C(!new)>(m: Machine<C>, w: World<C>, n: nat)
    requires Terminating(m) && w.h.counter < m.range && forall k :: 0 <= k < n ==> !HitsOverrun(m, w, k)
    ensures HandleTime(m, w, n) == OneByOne(m, w, n)
  {
    hide HandleTime, OneByOne, Terminating, HitsOverrun;
    OneByOneUnfolds(m, w, n);
    if n != 0 {
      TickingSteps(m, w, n - 1);
      SplitExact(m, w, n - 1, 1);
    }
  }

  /** A lapse up to the overrun, of n milliseconds, is n lapses of one millisecond. */
  lemma TickingExact<C(!new)>(m: Machine<C>, w: World<C>, n: nat)
    requires Terminating(m) && w.h.counter < m.range && w.h.counter + n <= m.range
    ensures HandleTime(m, w, n) == OneByOne(m, w, n)
  {
    hide HandleTime, OneByOne, Terminating, HitsOverrun;
    forall k | 0 <= k < n ensures !HitsOverrun(m, w, k) {
      BelowRange(m, w, k);
    }
    TickingSteps(m, w, n);
  }

  /** All lapses up to n milliseconds are that many lapses of one, exactly if no millisecond on the way, the last
      one excepted, falls inside a jump on the overrun with a timer enabled. */
  lemma TickingExactIff<C(!new)>(m: Machine<C>, w: World<C>, n: nat)
    requires Terminating(m) && w.h.counter < m.range
    ensures (forall k :: 0 <= k <= n ==> HandleTime(m, w, k) == OneByOne(m, w, k))
       <==> (forall k :: 0 <= k < n ==> !HitsOverrun(m, w, k))
  {
    hide HandleTime, OneByOne, Terminating, HitsOverrun;
    if forall k :: 0 <= k < n ==> !HitsOverrun(m, w, k) {
      forall k | 0 <= k <= n ensures HandleTime(m, w, k) == OneByOne(m, w, k) {
        TickingSteps(m, w, k);
      }
    } else {
      var k: nat :| k < n && HitsOverrun(m, w, k);
      SplitSeen(m, w, k);
      OneByOneUnfolds(m, w, k + 1);
      assert HandleTime(m, w, k) != OneByOne(m, w, k) || HandleTime(m, w, k + 1) != OneByOne(m, w, k + 1);
    }
  }

  // ---------------------------------------------------------------- an example

  /** A machine that ignores every event. */
  function IgnoresAll(): Machine<int> {
    Machine(UINT32, (h: Hsm<int>, s: int, ev: Event) => Response(Ignored, false, h.mask, h.container),
            (h: Hsm<int>, ev: Event) => 0, (h: Hsm<int>) => 0)
  }

  lemma IgnoredEvent(w: World<int>, ev: Event)
    ensures Terminating(IgnoresAll())
    ensures HandleEvent(IgnoresAll(), w, ev) ==
            World(w.h.(current := w.h.state), w.trace + [Visit(w.h.(current := w.h.state), w.h.state, ev, Ignored)])
  {
  }

  lemma OnlyTenFires<C(!new)>(m: Machine<C>, w: World<C>)
    requires Terminating(m)
    ensures Fire(m, w, DISABLED.(ms10 := true)) == HandleEvent(m, w, Timer10ms)
  {
    hide Terminating, HandleEvent;
  }

  /** With the 10 ms timer enabled and 6 ms to go, 10 ms at once fire nothing, 6 ms and then 4 ms fire once. */
  lemma WrapIsSeen(w: World<int>)
    requires w.h.counter == UINT32 - 6 && w.h.mask == DISABLED.(ms10 := true)
    ensures Terminating(IgnoresAll())
    ensures HandleTime(IgnoresAll(), w, 10).trace == w.trace
    ensures var seen := w.h.(current := w.h.state, counter := 0);
            HandleTime(IgnoresAll(), HandleTime(IgnoresAll(), w, 6), 4).trace ==
            w.trace + [Visit(seen, w.h.state, Timer10ms, Ignored)]
  {
    var m := IgnoresAll();
    assert m.range == UINT32 && Ticks(w.h) == 10;
    var w1 := Advance(m, w, 6);
    IgnoredEvent(w1, Timer10ms);
    hide Terminating, HandleEvent, IgnoresAll, Fire, Advance, Ready, Ticks, HandleTime;
    PastOverrun(m, w, 10);
    QuietJump(m, w, 10);
    StopOnOverrun(m, w, 6);
    OnlyTenFires(m, w1);
    var w2 := HandleTime(m, w, 6);
    TraceKept(m, w, 6);
    TraceKept(m, w, 10);
    MaskKept(m, w, 6);
    FreshCounter(w2);
    StopShort(m, w2, 4, 0);
    TraceKept(m, w2, 4);
  }

  lemma FreshCounter<C>(w: World<C>)
    requires w.h.counter == 0 && w.h.mask == DISABLED.(ms10 := true)
    ensures Ticks(w.h) == 10
  {
  }
}
