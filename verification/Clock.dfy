/** source/timer.c on values: what the clock counters and the timers started on them say about the true time. */
module ClockRuns {
  import opened Wrappers
  import opened Timers

  /** clock_ms, clock_s and clock_chrono */
  datatype Clock = Clock(ms: Uint32, s: Uint32, chrono: Uint32)

  const BOOT := Clock(0, 0, 0)

  datatype Update = Update(ms: Uint32, chrono: Uint32)

  /** clock_update; every operator works on uint32_t. */
  function Updated(c: Clock, u: Update): Clock {
    if u.ms == 0 then c.(chrono := u.chrono)
    else Clock((c.ms + u.ms) % UINT32, (c.s + (c.ms % 1000 + u.ms) % UINT32 / 1000) % UINT32, u.chrono)
  }

  /** Updates from the start of the clock, the last one outermost. */
  function Run(updates: seq<Update>): Clock {
    if updates == [] then BOOT else Updated(Run(updates[..|updates| - 1]), updates[|updates| - 1])
  }

  /** The true time in milliseconds. */
  function Total(updates: seq<Update>): nat {
    if updates == [] then 0 else Total(updates[..|updates| - 1]) + updates[|updates| - 1].ms
  }

  /** The sum in clock_update of the milliseconds of the second and the update does not fit 32 bits. */
  predicate Overflows(c: Clock, u: Update) {
    c.ms % 1000 + u.ms >= UINT32
  }

  /** How often it did not; such an update counts no second at all. */
  function Skips(updates: seq<Update>): nat {
    if updates == [] then 0
    else
      var before := updates[..|updates| - 1];
      Skips(before) + if Overflows(Run(before), updates[|updates| - 1]) then 1 else 0
  }

  /** How often clock_ms has wrapped, and how often, skips excepted, the 296 ms a wrap takes off clock_ms % 1000
      (4294967296 is 4294967 seconds and 296 ms) had to be borrowed from a second. */
  function Wraps(updates: seq<Update>): nat {
    if updates == [] then 0
    else
      var before := updates[..|updates| - 1];
      Wraps(before) + if Run(before).ms + updates[|updates| - 1].ms >= UINT32 then 1 else 0
  }

  predicate IsBorrow(c: Clock, u: Update) {
    c.ms + u.ms >= UINT32 && !Overflows(c, u) && (c.ms + u.ms) % 1000 < 296
  }

  function Borrows(updates: seq<Update>): (k: nat)
    ensures k <= Wraps(updates)
  {
    if updates == [] then 0
    else
      var before := updates[..|updates| - 1];
      Borrows(before) + if IsBorrow(Run(before), updates[|updates| - 1]) then 1 else 0
  }

  /** The seconds counted, if the counter had no limit. */
  function Seconds(updates: seq<Update>): nat {
    if updates == [] then 0
    else
      var before := updates[..|updates| - 1];
      Seconds(before) + (Run(before).ms % 1000 + updates[|updates| - 1].ms) % UINT32 / 1000
  }

  /** The longest update whose sum with the milliseconds of a second fits 32 bits. */
  predicate Moderate(updates: seq<Update>) {
    forall i :: 0 <= i < |updates| ==> updates[i].ms <= UINT32 - 1000
  }

  lemma SubModulo(a: nat, e: nat)
    requires e < UINT32
    ensures ((a + e) % UINT32 - a % UINT32) % UINT32 == e
  {
    assert a == UINT32 * (a / UINT32) + a % UINT32;
    assert a + e == UINT32 * ((a + e) / UINT32) + (a + e) % UINT32;
    assert (a + e) / UINT32 - a / UINT32 == 0 || (a + e) / UINT32 - a / UINT32 == 1;
  }

  lemma DivMod1000(x: int, q: int, r: int)
    requires x == 1000 * q + r && 0 <= r < 1000
    ensures x / 1000 == q && x % 1000 == r
  {
  }

  /** The numbers of one update whose sum fits. */
  lemma UpdateArithmetic(m: nat, u: nat)
    requires m < UINT32 && m % 1000 + u < UINT32
    ensures var ms := m + u;
            && ms % UINT32 == (if ms >= UINT32 then ms - UINT32 else ms)
            && (m % 1000 + u) % UINT32 == m % 1000 + u
            && 1000 * ((m % 1000 + u) / 1000) + ms % UINT32 % 1000 ==
               m % 1000 + u - (if ms >= UINT32 then 296 else 0) + if ms >= UINT32 && ms % 1000 < 296 then 1000 else 0
  {
    var q, r := (m % 1000 + u) / 1000, (m % 1000 + u) % 1000;
    var k := m / 1000 + q;
    DivMod1000(m + u, k, r);
    if m + u >= UINT32 {
      if r < 296 {
        DivMod1000(m + u - UINT32, k - 4294968, r + 704);
      } else {
        DivMod1000(m + u - UINT32, k - 4294967, r - 296);
      }
    }
  }

  /** And of one whose sum does not. */
  lemma SkipArithmetic(m: nat, u: nat)
    requires m < UINT32 && u < UINT32 <= m % 1000 + u
    ensures (m + u) % UINT32 == m + u - UINT32
    ensures (m % 1000 + u) % UINT32 / 1000 == 0
    ensures (m + u) % UINT32 % 1000 == m % 1000 + u - UINT32
  {
    assert (m % 1000 + u) % UINT32 == m % 1000 + u - UINT32 < 1000;
    DivMod1000(m + u - UINT32, m / 1000, m % 1000 + u - UINT32);
  }

  /** The two counters after a true time of t ms, w wraps, k borrows and o skips, with whole seconds counted. */
  predicate Exact(ms: nat, s: nat, t: nat, w: nat, k: nat, o: nat, whole: nat) {
    && ms == t - UINT32 * w && ms < UINT32
    && s == whole % UINT32
    && 1000 * whole + ms % 1000 == t - 296 * (w - o) + 1000 * k - UINT32 * o
  }

  lemma ExactAtBoot()
    ensures Exact(Run([]).ms, Run([]).s, Total([]), Wraps([]), Borrows([]), Skips([]), Seconds([]))
  {
    assert Run([]) == BOOT && Total([]) == Wraps([]) == Borrows([]) == Skips([]) == Seconds([]) == 0;
    hide Run, Total, Wraps, Borrows, Seconds, Skips;
  }

  lemma UpdateKeepsExact(c: Clock, u: Update, t: nat, w: nat, k: nat, o: nat, whole: nat)
    requires Exact(c.ms, c.s, t, w, k, o, whole)
    ensures Exact((c.ms + u.ms) % UINT32, (c.s + (c.ms % 1000 + u.ms) % UINT32 / 1000) % UINT32, t + u.ms,
                  w + if c.ms + u.ms >= UINT32 then 1 else 0, k + if IsBorrow(c, u) then 1 else 0,
                  o + if Overflows(c, u) then 1 else 0, whole + (c.ms % 1000 + u.ms) % UINT32 / 1000)
  {
    if Overflows(c, u) {
      SkipArithmetic(c.ms, u.ms);
    } else {
      UpdateArithmetic(c.ms, u.ms);
    }
    AddModulo(whole, (c.ms % 1000 + u.ms) % UINT32 / 1000);
  }

  /** What the two counters are after any updates: clock_ms is the true time modulo 2^32; seconds and the
      milliseconds of the second together are the true time less 296 ms for every wrap, plus a second for every
      borrow, except that an update that overflows the sum of clock_update is lost up to 2^32 ms. */
  lemma {:induction false} ClockExact(updates: seq<Update>)
    ensures Exact(Run(updates).ms, Run(updates).s, Total(updates), Wraps(updates), Borrows(updates), Skips(updates),
                  Seconds(updates))
  {
    hide Exact, Run, Total, Wraps, Borrows, Seconds, Skips, IsBorrow, Overflows;
    if updates == [] {
      ExactAtBoot();
    } else {
      var before := updates[..|updates| - 1];
      ClockExact(before);
      StepExact(updates);
      UpdateKeepsExact(Run(before), updates[|updates| - 1], Total(before), Wraps(before), Borrows(before),
                       Skips(before), Seconds(before));
    }
  }

  lemma StepExact(updates: seq<Update>)
    requires updates != []
    ensures var before, u := updates[..|updates| - 1], updates[|updates| - 1];
            var c := Run(before);
            && Run(updates).ms == (c.ms + u.ms) % UINT32
            && Run(updates).s == (c.s + (c.ms % 1000 + u.ms) % UINT32 / 1000) % UINT32
            && Total(updates) == Total(before) + u.ms
            && Wraps(updates) == Wraps(before) + (if c.ms + u.ms >= UINT32 then 1 else 0)
            && Borrows(updates) == Borrows(before) + (if IsBorrow(c, u) then 1 else 0)
            && Skips(updates) == Skips(before) + (if Overflows(c, u) then 1 else 0)
            && Seconds(updates) == Seconds(before) + (c.ms % 1000 + u.ms) % UINT32 / 1000
  {
    UpdatedUniformly(Run(updates[..|updates| - 1]), updates[|updates| - 1]);
    hide Updated, IsBorrow, Overflows;
  }

  /** Moderate updates never overflow. */
  lemma {:induction false} ModerateSkipsNone(updates: seq<Update>)
    requires Moderate(updates)
    ensures Skips(updates) == 0
  {
    if updates != [] {
      ModerateSkipsNone(updates[..|updates| - 1]);
    }
  }

  /** The test for a zero update changes nothing but speed. */
  lemma UpdatedUniformly(c: Clock, u: Update)
    ensures Updated(c, u) ==
            Clock((c.ms + u.ms) % UINT32, (c.s + (c.ms % 1000 + u.ms) % UINT32 / 1000) % UINT32, u.chrono)
  {
  }

  /** The true time less what the wraps and skips have taken off. */
  function Accounted(updates: seq<Update>): int {
    Total(updates) - 296 * (Wraps(updates) - Skips(updates)) + 1000 * Borrows(updates) - UINT32 * Skips(updates)
  }

  /** How far the seconds and the milliseconds of the second lag behind the true time. */
  function Behind(updates: seq<Update>): int {
    Total(updates) - (1000 * Seconds(updates) + Run(updates).ms % 1000)
  }

  /** The remark at clock_update has clock_s fall behind by a fixed 295 ms after the wrap. The lag is 296 ms for
      every wrap less 1000 ms for every borrow. */
  lemma LagExact(updates: seq<Update>)
    requires Moderate(updates)
    ensures Behind(updates) == 296 * Wraps(updates) - 1000 * Borrows(updates)
    ensures Wraps(updates) == 0 ==> Behind(updates) == 0
    ensures Wraps(updates) == 1 ==> Behind(updates) == 296 || Behind(updates) == -704
  {
    ClockExact(updates);
    ModerateSkipsNone(updates);
    hide Run, Total, Wraps, Seconds, Skips;
  }

  lemma FirstUpdate(u: Update)
    ensures Run([u]).ms == u.ms && Wraps([u]) == Borrows([u]) == 0
  {
    StepExact([u]);
    assert Run([]) == BOOT;
  }

  /** Both lags occur. */
  lemma WrapOf(ms: Uint32)
    requires 1000 <= ms < 2000
    ensures var updates := [Update(UINT32 - 1000, 0), Update(ms, 0)];
            Behind(updates) == if ms <= 1703 then 296 else -704
  {
    var first := Update(UINT32 - 1000, 0);
    var updates := [first, Update(ms, 0)];
    assert updates[..1] == [first];
    hide Total, Seconds, Behind, Run, Wraps, Borrows, Skips;
    FirstUpdate(first);
    StepExact(updates);
    DivMod1000(UINT32 - 1000 + ms, 4294967 + if ms <= 1703 then 0 else 1, if ms <= 1703 then ms - 704 else ms - 1704);
    LagExact(updates);
  }

  // ---------------------------------------------------------------- timers on this clock

  lemma {:induction false} TotalAppend(a: seq<Update>, b: seq<Update>)
    ensures Total(a + b) == Total(a) + Total(b)
    decreases |b|
  {
    if b == [] {
      assert a + b == a;
    } else {
      assert (a + b)[..|a + b| - 1] == a + b[..|b| - 1];
      TotalAppend(a, b[..|b| - 1]);
    }
  }

  /** clock_ms is the true time modulo 2^32, however large the updates. */
  lemma {:induction false} MillisIsTotal(updates: seq<Update>)
    ensures Run(updates).ms == Total(updates) % UINT32
  {
    if updates != [] {
      var before := updates[..|updates| - 1];
      MillisIsTotal(before);
      AddModulo(Total(before), updates[|updates| - 1].ms);
    }
  }

  /** A timer started after some updates and looked at after some more: for up to 2^32 - 1 ms its value is the
      time elapsed, across the wrap too, and it is expired exactly when the interval is over. */
  lemma TimerExact(before: seq<Update>, after: seq<Update>, interval: Uint32)
    requires Total(after) < UINT32
    ensures var t, now := Timer(Run(before).ms, interval), Run(before + after).ms;
            && Value(t, now) == Total(after)
            && (Expired(t, now) <==> interval != 0 && Total(after) >= interval)
            && Remaining(t, now) == if Total(after) < interval then interval - Total(after) else 0
  {
    hide Run, Total;
    MillisIsTotal(before);
    MillisIsTotal(before + after);
    TotalAppend(before, after);
    SubModulo(Total(before), Total(after));
    assert Value(Timer(Run(before).ms, interval), Run(before + after).ms) == Total(after);
    hide Value;
  }
}

/** source/timer.c in place. */
module ClockObject {
  import opened Wrappers
  import opened ClockRuns

  class SystemClock {
    var ms: Uint32
    var s: Uint32
    var chrono: Uint32
    ghost var updates: seq<Update>

    /** The counters are what all updates so far make them. */
    ghost predicate Valid()
      reads this
    {
      Run(updates) == Clock(ms, s, chrono)
    }

    constructor ()
      ensures Valid() && updates == []
    {
      ms, s, chrono, updates := 0, 0, 0, [];
    }

    /** clock_update */
    method Update(ms: Uint32, chrono: Uint32)
      requires Valid()
      modifies this
      ensures Valid() && updates == old(updates) + [ClockRuns.Update(ms, chrono)]
    {
      updates := updates + [ClockRuns.Update(ms, chrono)];
      assert updates[..|updates| - 1] == old(updates);
      if ms != 0 {
        s := (s + (this.ms % 1000 + ms) % UINT32 / 1000) % UINT32;
        this.ms := (this.ms + ms) % UINT32;
      }
      this.chrono := chrono;
    }

    /** clock_get_milis: the true time modulo 2^32. */
    method GetMilis() returns (r: Uint32)
      requires Valid()
      ensures r == Total(updates) % UINT32
    {
      MillisIsTotal(updates);
      r := ms;
    }

    /** clock_get_seconds: behind or ahead of the true time as the wraps say. */
    method GetSeconds() returns (r: Uint32)
      requires Valid()
      ensures r == Accounted(updates) / 1000 % UINT32
    {
      ClockExact(updates);
      DivMod1000(Accounted(updates), Seconds(updates), ms % 1000);
      r := s;
    }
  }
}
