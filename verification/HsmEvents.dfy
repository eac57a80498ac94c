/**
 The hierarchical state machine of source/core/hsm.c on values. Handlers are arbitrary functions that answer
 through the HSM_ macros and may change their container and the timers; how often they redirect is bounded
 by two rank functions, since an answer chain without end would never return from hsm_handle_event.
 */
module HsmEvents {
  import opened Wrappers

  datatype Event =
    | ExitState | EnterState
    | Timer1ms | Timer10ms | Timer100ms | Timer1s | Timer10s | Timer1m
    | User(number: int)

  /** HSM_HANDLED, HSM_IGNORED, HSM_SUPER and HSM_TRANS (HSM_PASS is HSM_TRANS with depth 0). */
  datatype Answer = Handled | Ignored | Super(parent: int) | Trans(target: int, depth: int)

  /** The enabled timers. */
  datatype Mask = Mask(ms1: bool, ms10: bool, ms100: bool, s1: bool, s10: bool, m1: bool)

  const DISABLED := Mask(false, false, false, false, false, false)

  /** struct hsm and the container its handlers work on. */
  datatype Hsm<C> = Hsm(state: int, current: int, unwind: int, counter: nat, mask: Mask, container: C)

  /** What a handler does: its answer, whether it resets the timer counter, the timers it leaves enabled, and
      the container. */
  datatype Response<C> = Response(answer: Answer, reset: bool, mask: Mask, container: C)

  /** One handler call: what the handler of the state found, the event and the answer. */
  datatype Visit<C> = Visit(seen: Hsm<C>, state: int, event: Event, answer: Answer)

  datatype World<C> = World(h: Hsm<C>, trace: seq<Visit<C>>)

  const UINT64 := 0x1_0000_0000_0000_0000

  /** One more than the largest value of the timer counter, an unsigned long of 32 or 64 bits. */
  type Range = r: nat | r == UINT32 || r == UINT64 witness UINT32

  datatype Machine<!C> = Machine(
    range: Range,
    handler: (Hsm<C>, int, Event) -> Response<C>,
    superRank: (Hsm<C>, Event) -> nat,
    enterRank: Hsm<C> -> nat)

  /** The call of handler s: the macros store the new state and depth before the answer is returned. */
  function Answered<C>(m: Machine<C>, h: Hsm<C>, s: int, ev: Event): Hsm<C> {
    var r := m.handler(h, s, ev);
    Hsm(if r.answer.Super? then r.answer.parent else if r.answer.Trans? then r.answer.target else h.state,
        h.current,
        if r.answer.Trans? then r.answer.depth else h.unwind,
        if r.reset then 0 else h.counter,
        r.mask,
        r.container)
  }

  function Call<C>(m: Machine<C>, w: World<C>, s: int, ev: Event): World<C> {
    World(Answered(m, w.h, s, ev), w.trace + [Visit(w.h, s, ev, m.handler(w.h, s, ev).answer)])
  }

  /** What entering the stored state starts from: it becomes the current one and the timers are initialized. */
  function Entering<C>(h: Hsm<C>): Hsm<C> {
    h.(current := h.state, counter := 0, mask := DISABLED)
  }

  /** Entering the stored state redirects to another one. */
  predicate Redirects<C>(m: Machine<C>, h: Hsm<C>) {
    var answer := m.handler(Entering(h), h.state, EnterState).answer;
    answer.Trans? && answer.target != h.state
  }

  /** Handing an event up ends, and so does entering states that redirect to other states. */
  ghost predicate Terminating<C(!new)>(m: Machine<C>) {
    && (forall h: Hsm<C>, ev: Event ::
          m.handler(h, h.state, ev).answer.Super? ==> m.superRank(Answered(m, h, h.state, ev), ev) < m.superRank(h, ev))
    && (forall h: Hsm<C> ::
          Redirects(m, h) ==> m.enterRank(Answered(m, Entering(h), h.state, EnterState)) < m.enterRank(h))
  }

  // ---------------------------------------------------------------- hsm_handle_event

  /** The event goes to the stored state and up while the answer is HSM_SUPER. */
  function Bubble<C(!new)>(m: Machine<C>, w: World<C>, ev: Event): (w': World<C>)
    requires Terminating(m)
    ensures w.trace < w'.trace
    decreases m.superRank(w.h, ev)
  {
    var w1 := Call(m, w, w.h.state, ev);
    if Last(w1.trace).answer.Super? then Bubble(m, w1, ev) else w1
  }

  /** EXIT goes to the stored state and up while there is depth left and the answer is HSM_SUPER. */
  function Leave<C>(m: Machine<C>, w: World<C>): (w': World<C>)
    decreases w.h.unwind
  {
    if w.h.unwind <= 0 then w
    else
      var w1 := Call(m, w, w.h.state, ExitState);
      var depth := if Last(w1.trace).answer.Super? then w.h.unwind - 1 else 0;
      Leave(m, w1.(h := w1.h.(unwind := depth)))
  }

  /** ENTER goes to the stored state, then to the state it redirects to, and so on. */
  function Enter<C(!new)>(m: Machine<C>, w: World<C>): (w': World<C>)
    requires Terminating(m)
    decreases m.enterRank(w.h)
  {
    var w1 := Call(m, w.(h := Entering(w.h)), w.h.state, EnterState);
    if Last(w1.trace).answer.Trans? && w1.h.current != w1.h.state then Enter(m, w1) else w1
  }

  /** hsm_handle_event */
  function HandleEvent<C(!new)>(m: Machine<C>, w: World<C>, ev: Event): World<C>
    requires Terminating(m)
  {
    var w1 := Bubble(m, w.(h := w.h.(current := w.h.state)), ev);
    var w2 :=
      if Last(w1.trace).answer.Trans? && w1.h.current != w1.h.state then
        var left := Leave(m, w1.(h := w1.h.(state := w1.h.current)));
        Enter(m, left.(h := left.h.(state := w1.h.state)))
      else w1;
    w2.(h := w2.h.(state := w2.h.current))
  }

  /** Why the loops of hsm_handle_event end. */
  lemma SuperFalls<C(!new)>(m: Machine<C>, w: World<C>, ev: Event)
    requires Terminating(m)
    ensures var w1 := Call(m, w, w.h.state, ev);
            && Bubble(m, w, ev) == (if Last(w1.trace).answer.Super? then Bubble(m, w1, ev) else w1)
            && (Last(w1.trace).answer.Super? ==> m.superRank(w1.h, ev) < m.superRank(w.h, ev))
  {
  }

  lemma EnterFalls<C(!new)>(m: Machine<C>, w: World<C>)
    requires Terminating(m)
    ensures var w1 := Call(m, w.(h := Entering(w.h)), w.h.state, EnterState);
            var more := Last(w1.trace).answer.Trans? && w1.h.current != w1.h.state;
            && Enter(m, w) == (if more then Enter(m, w1) else w1)
            && (more ==> m.enterRank(w1.h) < m.enterRank(w.h))
  {
  }

  // ---------------------------------------------------------------- who is called

  /** The k-th ancestor. */
  function Ancestor(parent: int -> int, s: int, k: nat): int
    decreases k
  {
    if k == 0 then s else Ancestor(parent, parent(s), k - 1)
  }

  /** Every HSM_SUPER answer names the parent. */
  ghost predicate Hierarchical<C(!new)>(m: Machine<C>, parent: int -> int) {
    forall h: Hsm<C>, s: int, ev: Event ::
      m.handler(h, s, ev).answer.Super? ==> m.handler(h, s, ev).answer.parent == parent(s)
  }

  /** The event went to s and its ancestors in turn; all but the last answered HSM_SUPER. */
  ghost predicate Climbs<C>(parent: int -> int, s: int, ev: Event, vs: seq<Visit<C>>) {
    forall i :: 0 <= i < |vs| ==> && vs[i].event == ev && vs[i].state == Ancestor(parent, s, i)
                                  && (i < |vs| - 1 ==> vs[i].answer.Super?)
  }

  /** ENTER went to s, then to each state the one before redirected to; the last did not redirect. */
  ghost predicate Enters<C>(s: int, vs: seq<Visit<C>>) {
    && vs != [] && vs[0].state == s
    && (forall i :: 0 <= i < |vs| ==> vs[i].event == EnterState)
    && (forall i :: 0 <= i < |vs| - 1 ==> vs[i].answer.Trans? && vs[i].answer.target == vs[i + 1].state != vs[i].state)
    && !(Last(vs).answer.Trans? && Last(vs).answer.target != Last(vs).state)
  }

  // ---------------------------------------------------------------- what they find and leave

  /** What one call leaves for the next: the current state, the timer and the container. */
  datatype Kept<C> = Kept(current: int, counter: nat, mask: Mask, container: C)

  function KeptOf<C>(h: Hsm<C>): Kept<C> {
    Kept(h.current, h.counter, h.mask, h.container)
  }

  function LeftBy<C>(m: Machine<C>, v: Visit<C>): Kept<C> {
    var r := m.handler(v.seen, v.state, v.event);
    Kept(v.seen.current, if r.reset then 0 else v.seen.counter, r.mask, r.container)
  }

  /** What these calls leave when the first one finds k. */
  function After<C>(m: Machine<C>, k: Kept<C>, vs: seq<Visit<C>>): Kept<C> {
    if vs == [] then k else LeftBy(m, Last(vs))
  }

  /** The handler of the stored state answered. It found the container as the call before left it; when a state is
      entered, itself as the current state, the counter at 0 and every timer disabled, else these as left before. */
  ghost predicate Called<C(!new)>(m: Machine<C>, k: Kept<C>, v: Visit<C>, entering: bool) {
    && v.answer == m.handler(v.seen, v.state, v.event).answer
    && v.seen.state == v.state && v.seen.container == k.container
    && if entering then v.seen.current == v.state && v.seen.counter == 0 && v.seen.mask == DISABLED
       else v.seen.current == k.current && v.seen.counter == k.counter && v.seen.mask == k.mask
  }

  /** These calls were made one after the other; k' is what they left. */
  ghost predicate Threaded<C(!new)>(m: Machine<C>, k: Kept<C>, vs: seq<Visit<C>>, entering: bool, k': Kept<C>) {
    && (forall i :: 0 <= i < |vs| ==> Called(m, After(m, k, vs[..i]), vs[i], entering))
    && k' == After(m, k, vs)
  }

  lemma ThreadedAppend<C(!new)>(m: Machine<C>, k: Kept<C>, a: seq<Visit<C>>, k1: Kept<C>, b: seq<Visit<C>>,
                                entering: bool, k2: Kept<C>)
    requires Threaded(m, k, a, entering, k1) && Threaded(m, k1, b, entering, k2)
    ensures Threaded(m, k, a + b, entering, k2)
  {
    hide Called;
    forall i | 0 <= i < |a + b| ensures Called(m, After(m, k, (a + b)[..i]), (a + b)[i], entering) {
      if i < |a| {
        assert (a + b)[..i] == a[..i];
      } else {
        assert (a + b)[..i] == a + b[..i - |a|];
        assert After(m, k, a + b[..i - |a|]) == After(m, k1, b[..i - |a|]);
      }
    }
  }

  lemma ThreadedOne<C(!new)>(m: Machine<C>, w: World<C>, k: Kept<C>, s: int, ev: Event, entering: bool)
    requires s == w.h.state && w.h.container == k.container
    requires if entering then w.h == Entering(w.h) else KeptOf(w.h) == k
    ensures Threaded(m, k, [Last(Call(m, w, s, ev).trace)], entering, KeptOf(Call(m, w, s, ev).h))
  {
    var v := Last(Call(m, w, s, ev).trace);
    assert [v][..0] == [] && Last([v]) == v;
  }

  lemma ClimbsCons<C>(parent: int -> int, s: int, ev: Event, v: Visit<C>, vs: seq<Visit<C>>)
    requires v.event == ev && v.state == s && (vs != [] ==> v.answer.Super?) && Climbs(parent, parent(s), ev, vs)
    ensures Climbs(parent, s, ev, [v] + vs)
  {
    forall i | 0 < i < |[v] + vs| ensures ([v] + vs)[i].state == Ancestor(parent, s, i) {
      assert ([v] + vs)[i] == vs[i - 1];
    }
  }

  lemma {:induction false} BubbleClimbs<C(!new)>(m: Machine<C>, parent: int -> int, w: World<C>, ev: Event)
    returns (vs: seq<Visit<C>>)
    requires Terminating(m) && Hierarchical(m, parent)
    ensures var w' := Bubble(m, w, ev);
            && w'.trace == w.trace + vs && vs != [] && Climbs(parent, w.h.state, ev, vs)
            && !Last(vs).answer.Super? && w'.h.current == w.h.current
            && Threaded(m, KeptOf(w.h), vs, false, KeptOf(w'.h))
            && (Last(vs).answer.Trans? ==> w'.h.state == Last(vs).answer.target && w'.h.unwind == Last(vs).answer.depth)
    decreases m.superRank(w.h, ev)
  {
    hide Threaded;
    var w1 := Call(m, w, w.h.state, ev);
    var v := Last(w1.trace);
    ThreadedOne(m, w, KeptOf(w.h), w.h.state, ev, false);
    if v.answer.Super? {
      var rest := BubbleClimbs(m, parent, w1, ev);
      vs := [v] + rest;
      ThreadedAppend(m, KeptOf(w.h), [v], KeptOf(w1.h), rest, false, KeptOf(Bubble(m, w, ev).h));
      ClimbsCons(parent, w.h.state, ev, v, rest);
    } else {
      vs := [v];
    }
  }

  /** EXIT reaches as many states as the depth says, or fewer if one of them does not answer HSM_SUPER. */
  lemma {:induction false} LeaveClimbs<C(!new)>(m: Machine<C>, parent: int -> int, w: World<C>)
    returns (vs: seq<Visit<C>>)
    requires Hierarchical(m, parent)
    ensures var w' := Leave(m, w);
            && w'.trace == w.trace + vs && Climbs(parent, w.h.state, ExitState, vs)
            && (if w.h.unwind <= 0 then vs == []
                else 1 <= |vs| <= w.h.unwind && (|vs| < w.h.unwind ==> !Last(vs).answer.Super?))
            && Threaded(m, KeptOf(w.h), vs, false, KeptOf(w'.h))
    decreases w.h.unwind
  {
    if w.h.unwind <= 0 {
      vs := [];
      return;
    }
    hide *;
    var v, w1 := LeaveOnce(m, parent, w);
    var rest := LeaveClimbs(m, parent, w1);
    vs := [v] + rest;
    assert Leave(m, w).trace == w.trace + vs by { Regrouped(w.trace, [v], rest); }
    assert rest != [] ==> vs[|vs| - 1] == rest[|rest| - 1];
    ThreadedAppend(m, KeptOf(w.h), [v], KeptOf(w1.h), rest, false, KeptOf(Leave(m, w).h));
    NoClimb<C>(parent, parent(w.h.state), ExitState);
    ClimbsCons(parent, w.h.state, ExitState, v, rest);
  }

  lemma LeaveOnce<C(!new)>(m: Machine<C>, parent: int -> int, w: World<C>) returns (v: Visit<C>, w1: World<C>)
    requires w.h.unwind > 0 && Hierarchical(m, parent)
    ensures Leave(m, w) == Leave(m, w1) && w1.trace == w.trace + [v]
    ensures v.event == ExitState && v.state == w.h.state && (v.answer.Super? ==> w1.h.state == parent(w.h.state))
    ensures w1.h.unwind == if v.answer.Super? then w.h.unwind - 1 else 0
    ensures Threaded(m, KeptOf(w.h), [v], false, KeptOf(w1.h))
  {
    w1 := Call(m, w, w.h.state, ExitState);
    v := Last(w1.trace);
    ThreadedOne(m, w, KeptOf(w.h), w.h.state, ExitState, false);
    hide Threaded;
    w1 := w1.(h := w1.h.(unwind := if v.answer.Super? then w.h.unwind - 1 else 0));
  }

  lemma Regrouped<T>(a: seq<T>, b: seq<T>, c: seq<T>)
    ensures a + b + c == a + (b + c)
  {
  }

  lemma NoClimb<C>(parent: int -> int, s: int, ev: Event)
    ensures Climbs<C>(parent, s, ev, [])
  {
  }

  lemma {:induction false} EnterEnters<C(!new)>(m: Machine<C>, w: World<C>) returns (vs: seq<Visit<C>>)
    requires Terminating(m)
    ensures var w' := Enter(m, w);
            && w'.trace == w.trace + vs && Enters(w.h.state, vs) && w'.h.current == Last(vs).state
            && Threaded(m, KeptOf(w.h), vs, true, KeptOf(w'.h))
    decreases m.enterRank(w.h)
  {
    hide Threaded;
    var w1 := Call(m, w.(h := Entering(w.h)), w.h.state, EnterState);
    var v := Last(w1.trace);
    ThreadedOne(m, w.(h := Entering(w.h)), KeptOf(w.h), w.h.state, EnterState, true);
    if v.answer.Trans? && w1.h.current != w1.h.state {
      var rest := EnterEnters(m, w1);
      vs := [v] + rest;
      ThreadedAppend(m, KeptOf(w.h), [v], KeptOf(w1.h), rest, true, KeptOf(Enter(m, w).h));
    } else {
      vs := [v];
    }
  }

  /** The handler calls of one event: up the ancestors to the first answer that is not HSM_SUPER; if that is a
      transition to another state, EXIT up from the old state and ENTER down the redirections. The state stored
      at the end is the last one entered, or the old one when there was no transition. Each call finds what the one
      before left, ENTER with all timers disabled and the counter at 0; timer and container are left by the last. */
  lemma EventTrace<C(!new)>(m: Machine<C>, parent: int -> int, w: World<C>, ev: Event)
    returns (up: seq<Visit<C>>, exits: seq<Visit<C>>, enters: seq<Visit<C>>)
    requires Terminating(m) && Hierarchical(m, parent)
    ensures var w' := HandleEvent(m, w, ev);
            && w'.trace == w.trace + up + exits + enters
            && (var k := KeptOf(w.h.(current := w.h.state));
                var mid := After(m, k, up + exits);
                Threaded(m, k, up + exits, false, mid) && Threaded(m, mid, enters, true, KeptOf(w'.h)))
            && w'.h.state == w'.h.current
            && up != [] && Climbs(parent, w.h.state, ev, up) && !Last(up).answer.Super?
            && (if Last(up).answer.Trans? && Last(up).answer.target != w.h.state then
                  var depth := Last(up).answer.depth;
                  && Climbs(parent, w.h.state, ExitState, exits)
                  && (if depth <= 0 then exits == []
                      else 1 <= |exits| <= depth && (|exits| < depth ==> !Last(exits).answer.Super?))
                  && Enters(Last(up).answer.target, enters)
                  && w'.h.state == Last(enters).state
                else exits == [] && enters == [] && w'.h.state == w.h.state)
  {
    hide Threaded;
    var w0 := w.(h := w.h.(current := w.h.state));
    up := BubbleClimbs(m, parent, w0, ev);
    var w1 := Bubble(m, w0, ev);
    assert Last(w1.trace) == Last(up);
    if Last(up).answer.Trans? && w1.h.current != w1.h.state {
      var w2 := w1.(h := w1.h.(state := w1.h.current));
      exits := LeaveClimbs(m, parent, w2);
      var left := Leave(m, w2);
      enters := EnterEnters(m, left.(h := left.h.(state := w1.h.state)));
      ThreadedAppend(m, KeptOf(w0.h), up, KeptOf(w1.h), exits, false, KeptOf(left.h));
      ThreadedEnd(m, KeptOf(w0.h), up + exits, KeptOf(left.h));
    } else {
      exits, enters := [], [];
      assert up + exits == up;
      ThreadedEnd(m, KeptOf(w0.h), up, KeptOf(w1.h));
    }
  }

  lemma ThreadedEnd<C(!new)>(m: Machine<C>, k: Kept<C>, vs: seq<Visit<C>>, k': Kept<C>)
    requires Threaded(m, k, vs, false, k')
    ensures k' == After(m, k, vs) && Threaded(m, k', [], true, k')
  {
  }
}
