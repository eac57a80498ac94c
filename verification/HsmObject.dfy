/** source/core/hsm.c in place: struct hsm as an object, proved against HsmEvents and HsmTime. */
module HsmObject {
  import opened Wrappers
  import E = HsmEvents
  import T = HsmTime

  class Hsm<C(!new)> {
    const machine: E.Machine<C>

    var state: int
    var currentState: int
    var unwind: int
    var counter: nat
    var mask: E.Mask
    var container: C
    ghost var trace: seq<E.Visit<C>>

    ghost function View(): E.World<C>
      reads this
    {
      E.World(E.Hsm(state, currentState, unwind, counter, mask, container), trace)
    }

    /** hsm_init leaves the timer as it finds it. */
    constructor (machine: E.Machine<C>, initialState: int, counter: nat, mask: E.Mask, container: C)
      ensures this.machine == machine
      ensures View() == E.World(E.Hsm(initialState, initialState, 0, counter, mask, container), [])
    {
      this.machine := machine;
      state, currentState, unwind := initialState, initialState, 0;
      this.counter, this.mask, this.container := counter, mask, container;
      trace := [];
    }

    /** The call of a state handler, with what the HSM_ and timer functions do to the struct meanwhile. */
    method CallHandler(s: int, ev: E.Event) returns (answer: E.Answer)
      modifies this
      ensures View() == E.Call(machine, old(View()), s, ev)
      ensures trace != [] && answer == Last(trace).answer
    {
      var seen := E.Hsm(state, currentState, unwind, counter, mask, container);
      var r := machine.handler(seen, s, ev);
      answer := r.answer;
      match answer {
        case Super(parent) => state := parent;
        case Trans(target, depth) =>
          state := target;
          unwind := depth;
        case Handled =>
        case Ignored =>
      }
      if r.reset {
        counter := 0;
      }
      mask := r.mask;
      container := r.container;
      trace := trace + [E.Visit(seen, s, ev, answer)];
    }

    /** hsm_handle_event */
    method HandleEvent(ev: E.Event)
      requires E.Terminating(machine)
      modifies this
      ensures View() == E.HandleEvent(machine, old(View()), ev)
    {
      hide E.Terminating, E.Call, E.Bubble;
      currentState := state;
      ghost var w0 := View();
      E.SuperFalls(machine, View(), ev);
      var answer := CallHandler(state, ev);
      while answer.Super?
        invariant trace != [] && answer == Last(trace).answer
        invariant E.Bubble(machine, w0, ev) == if answer.Super? then E.Bubble(machine, View(), ev) else View()
        decreases answer.Super?, machine.superRank(View().h, ev)
      {
        E.SuperFalls(machine, View(), ev);
        answer := CallHandler(state, ev);
      }
      if answer.Trans? {
        if currentState != state {
          var newState := state;
          state := currentState;
          SendExits();
          state := newState;
          SendEnters();
        }
      }
      state := currentState;
    }

    /** The EXIT events of hsm_handle_event. */
    method SendExits()
      modifies this
      ensures View() == E.Leave(machine, old(View()))
    {
      while unwind > 0
        invariant E.Leave(machine, old(View())) == E.Leave(machine, View())
        decreases unwind
      {
        ghost var w := View();
        var answer := CallHandler(state, E.ExitState);
        ghost var w1 := View();
        assert answer.Super? ==> w1.h.unwind == w.h.unwind;
        unwind := if answer.Super? then unwind - 1 else 0;
        assert View() == w1.(h := w1.h.(unwind := unwind));
        assert E.Leave(machine, w) == E.Leave(machine, View());
      }
    }

    /** The ENTER events of hsm_handle_event. */
    method SendEnters()
      requires E.Terminating(machine)
      modifies this
      ensures View() == E.Enter(machine, old(View()))
    {
      hide E.Terminating, E.Call, E.Enter;
      var redirected := true;
      while redirected
        invariant E.Enter(machine, old(View())) == if redirected then E.Enter(machine, View()) else View()
        decreases redirected, machine.enterRank(View().h)
      {
        ghost var w := View();
        E.EnterFalls(machine, w);
        currentState := state;
        counter := 0;
        mask := E.DISABLED;
        assert View() == w.(h := E.Entering(w.h));
        var answer := CallHandler(currentState, E.EnterState);
        redirected := answer.Trans? && currentState != state;
      }
    }

    /** hsm_timer_check: moves the counter on and finds the ready timers. */
    method TimerCheck(lapse: nat) returns (rest: nat, ready: E.Mask)
      requires 0 < lapse
      modifies this`counter
      ensures var ticks := Min(T.Ticks(old(View()).h), lapse);
              rest == lapse - ticks && View() == T.Advance(machine, old(View()), ticks) && ready == T.Ready(View().h)
    {
      var ticks;
      if mask.ms1 {
        ticks := 1;
      } else if mask.ms10 {
        ticks := 10 - counter % 10;
      } else if mask.ms100 {
        ticks := 100 - counter % 100;
      } else {
        ticks := 1000 - counter % 1000;
      }
      ticks := if lapse >= ticks then ticks else lapse;
      rest := lapse - ticks;
      counter := (counter + ticks) % machine.range;
      ready := ReadyTimers();
    }

    /** The second half of hsm_timer_check. */
    method ReadyTimers() returns (ready: E.Mask)
      ensures ready == T.Ready(View().h)
    {
      ready := E.DISABLED;
      if mask.ms1 {
        ready := ready.(ms1 := true);
      }
      if mask.ms10 && counter % 10 == 0 {
        ready := ready.(ms10 := true);
      }
      if mask.ms100 && counter % 100 == 0 {
        ready := ready.(ms100 := true);
      }
      if mask.s1 && counter % 1000 == 0 {
        ready := ready.(s1 := true);
      }
      if mask.s10 && counter % 10000 == 0 {
        ready := ready.(s10 := true);
      }
      if mask.m1 && counter % 60000 == 0 {
        ready := ready.(m1 := true);
      }
    }

    /** hsm_handle_time */
    method HandleTime(timeLapse: nat)
      requires E.Terminating(machine)
      modifies this
      ensures View() == T.HandleTime(machine, old(View()), timeLapse)
    {
      hide E.HandleEvent, E.Terminating, T.Ready, T.Ticks, T.Advance;
      var lapse := timeLapse;
      while lapse > 0
        invariant T.HandleTime(machine, View(), lapse) == T.HandleTime(machine, old(View()), timeLapse)
      {
        var ready;
        lapse, ready := TimerCheck(lapse);
        if ready.ms1 {
          HandleEvent(E.Timer1ms);
        }
        if ready.ms10 {
          HandleEvent(E.Timer10ms);
        }
        if ready.ms100 {
          HandleEvent(E.Timer100ms);
        }
        if ready.s1 {
          HandleEvent(E.Timer1s);
        }
        if ready.s10 {
          HandleEvent(E.Timer10s);
        }
        if ready.m1 {
          HandleEvent(E.Timer1m);
        }
      }
    }
  }
}
