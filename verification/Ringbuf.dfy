/**
 source/ringbuf.c on values: one producer and one consumer. ringbuf_put and ringbuf_get are cut into their
 accesses to shared memory (the check of the other side's index, the access to the slot, the publication of
 the own index), which may interleave in any order.
 */
module RingbufRuns {
  import opened Wrappers

  // ---------------------------------------------------------------- the & operator

  /** x & y in two's complement, bit by bit; x may be negative. */
  function And(x: int, y: nat): (r: nat)
    ensures r <= y
    decreases y
  {
    if y == 0 then 0 else (if x % 2 == 1 && y % 2 == 1 then 1 else 0) + 2 * And(x / 2, y / 2)
  }

  ghost predicate IsPowerOfTwo(n: nat) {
    exists k: nat :: n == Pow2(k)
  }

  function Mod(x: int, n: nat): int
    requires n >= 1
  {
    x % n
  }

  lemma ModOfHalf(x: int, p: nat, twice: nat)
    requires p >= 1 && twice == 2 * p
    ensures Mod(x, twice) == x % 2 + 2 * Mod(x / 2, p)
  {
    var q := x / 2 / p;
    var r := x % 2 + 2 * (x / 2 % p);
    assert x / 2 == p * q + x / 2 % p;
    assert x == 2 * (x / 2) + x % 2;
    assert x == q * twice + r by {
      assert 2 * (p * q) == q * twice;
    }
    Remainder(x, twice, q, r);
  }

  lemma MultipleIsFar(d: int, n: int)
    requires n >= 1
    ensures d >= 1 ==> d * n >= n
    ensures d <= -1 ==> d * n <= -n
  {
  }

  lemma Remainder(x: int, n: nat, q: int, r: int)
    requires n >= 1 && 0 <= r < n && x == q * n + r
    ensures x % n == r
  {
    var d := x / n - q;
    MultipleIsFar(d, n);
    assert x == n * (x / n) + x % n;
    assert d * n == r - x % n by {
      assert d * n == x / n * n - q * n;
    }
  }

  /** With a mask of all ones the & is a remainder, for negative differences too. */
  lemma {:induction false} AndIsRemainder(x: int, k: nat)
    ensures And(x, Pow2(k) - 1) == Mod(x, Pow2(k))
    decreases k
  {
    hide And, Mod;
    if k == 0 {
      AndOfOneSlot(x);
    } else {
      var p, q := Pow2(k - 1), Pow2(k);
      AndIsRemainder(x / 2, k - 1);
      AndHalves(x, p, q);
      ModOfHalf(x, p, q);
    }
  }

  lemma AndOfOneSlot(x: int)
    ensures And(x, 0) == Mod(x, 1)
  {
  }

  lemma AndHalves(x: int, p: nat, twice: nat)
    requires p >= 1 && twice == 2 * p
    ensures And(x, twice - 1) == x % 2 + 2 * And(x / 2, p - 1)
  {
    assert (twice - 1) / 2 == p - 1 && (twice - 1) % 2 == 1;
  }

  // ---------------------------------------------------------------- the two threads

  datatype Producer = PutIdle | Writing(c: Byte) | Publishing(c: Byte)

  datatype Consumer = GetIdle | Loading | Releasing(c: Byte)

  /** struct ringbuf, where the two threads are, and the values put and got so far. */
  datatype State = State(data: seq<Byte>, mask: nat, put: nat, get: nat, producer: Producer, consumer: Consumer,
                         accepted: seq<Byte>, read: seq<Byte>)

  datatype Step = PutCheck(c: Byte) | PutWrite | PutPublish | GetCheck | GetLoad | GetRelease

  /** ringbuf_init */
  function Init(buffer: seq<Byte>): State
    requires buffer != []
  {
    State(buffer, |buffer| - 1, 0, 0, PutIdle, GetIdle, [], [])
  }

  /** ringbuf_elements */
  function Elements(s: State): nat {
    And(s.put - s.get, s.mask)
  }

  /** The indices stay inside the buffer. */
  predicate Shape(s: State) {
    s.data != [] && s.mask == |s.data| - 1 && s.put <= s.mask && s.get <= s.mask
  }

  /** One access by one thread; a thread takes its own steps in order, so any other step does nothing. */
  function Next(s: State, step: Step): (s': State)
    requires Shape(s)
    ensures Shape(s') && |s'.data| == |s.data|
  {
    match step
    case PutCheck(c) =>
      if s.producer.PutIdle? && Elements(s) != s.mask then s.(producer := Writing(c)) else s
    case PutWrite =>
      if s.producer.Writing? then s.(data := s.data[s.put := s.producer.c], producer := Publishing(s.producer.c)) else s
    case PutPublish =>
      if s.producer.Publishing? then
        s.(put := And(s.put + 1, s.mask), producer := PutIdle, accepted := s.accepted + [s.producer.c])
      else s
    case GetCheck =>
      if s.consumer.GetIdle? && Elements(s) > 0 then s.(consumer := Loading) else s
    case GetLoad =>
      if s.consumer.Loading? then s.(consumer := Releasing(s.data[s.get])) else s
    case GetRelease =>
      if s.consumer.Releasing? then
        s.(get := And(s.get + 1, s.mask), consumer := GetIdle, read := s.read + [s.consumer.c])
      else s
  }

  function Run(s: State, steps: seq<Step>): (s': State)
    requires Shape(s)
    ensures Shape(s') && |s'.data| == |s.data|
    decreases |steps|
  {
    if steps == [] then s else Run(Next(s, steps[0]), steps[1..])
  }

  // ---------------------------------------------------------------- every interleaving is a queue

  /** The i-th value accepted lies in slot i modulo the size until it is read. */
  ghost predicate Sound(s: State) {
    var n := |s.data|;
    && Shape(s) && IsPowerOfTwo(n)
    && s.put == |s.accepted| % n && s.get == |s.read| % n
    && s.read <= s.accepted
    && |s.accepted| - |s.read| <= n - 1
    && (!s.producer.PutIdle? ==> |s.accepted| - |s.read| <= n - 2)
    && (s.producer.Publishing? ==> s.data[s.put] == s.producer.c)
    && (forall i :: |s.read| <= i < |s.accepted| ==> s.data[i % n] == s.accepted[i])
    && (!s.consumer.GetIdle? ==> |s.read| < |s.accepted|)
    && (s.consumer.Releasing? ==> s.consumer.c == s.accepted[|s.read|])
  }

  lemma MaskIsRemainder(x: int, n: nat)
    requires n >= 1 && IsPowerOfTwo(n)
    ensures And(x, n - 1) == x % n
  {
    var k: nat :| n == Pow2(k);
    AndIsRemainder(x, k);
  }

  lemma RemainderOfSum(x: int, y: int, n: nat)
    requires n >= 1
    ensures (x % n + y) % n == (x + y) % n
    ensures (x - y % n) % n == (x - y) % n
  {
    var z := x + y;
    assert x == n * (x / n) + x % n;
    assert x % n + y == (z / n - x / n) * n + z % n by {
      assert z == n * (z / n) + z % n;
      assert (z / n - x / n) * n == n * (z / n) - n * (x / n);
    }
    Remainder(x % n + y, n, z / n - x / n, z % n);
    var d := x - y;
    assert x - y % n == (d / n + y / n) * n + d % n by {
      assert d == n * (d / n) + d % n;
      assert y == n * (y / n) + y % n;
      assert (d / n + y / n) * n == n * (d / n) + n * (y / n);
    }
    Remainder(x - y % n, n, d / n + y / n, d % n);
  }

  /** What either side computes from the two indices is the number of unread values. */
  lemma ElementsIsUnread(s: State)
    requires Sound(s)
    ensures Elements(s) == |s.accepted| - |s.read|
  {
    var n := |s.data|;
    MaskIsRemainder(s.put - s.get, n);
    var minusGet: int := 0 - s.get;
    RemainderOfSum(|s.accepted|, minusGet, n);
    RemainderOfSum(|s.accepted|, |s.read|, n);
    Remainder(|s.accepted| - |s.read|, n, 0, |s.accepted| - |s.read|);
  }

  lemma IndexMovesOn(i: nat, n: nat)
    requires n >= 1 && IsPowerOfTwo(n)
    ensures And(i % n + 1, n - 1) == (i + 1) % n
  {
    MaskIsRemainder(i % n + 1, n);
    RemainderOfSum(i, 1, n);
  }

  /** Two values fewer than n apart lie in different slots. */
  lemma SlotsDiffer(i: nat, j: nat, n: nat)
    requires i < j < i + n
    ensures i % n != j % n
  {
    var q := j / n - i / n;
    assert j - i == q * n + (j % n - i % n) by {
      assert i == n * (i / n) + i % n && j == n * (j / n) + j % n;
      assert q * n == n * (j / n) - n * (i / n);
    }
    MultipleIsFar(q, n);
  }

  /** The slot the producer is about to write or has just written holds no unread value. */
  lemma ProducerSlotIsFree(s: State, i: nat)
    requires Sound(s) && |s.accepted| - |s.read| <= |s.data| - 1 && |s.read| <= i < |s.accepted|
    ensures s.put != i % |s.data|
  {
    SlotsDiffer(i, |s.accepted|, |s.data|);
  }

  lemma PutKeeps(s: State, step: Step)
    requires Sound(s) && (step.PutCheck? || step.PutWrite? || step.PutPublish?)
    ensures Sound(Next(s, step))
  {
    ElementsIsUnread(s);
    hide IsPowerOfTwo;
    var s' := Next(s, step);
    var n := |s.data|;
    if step.PutWrite? && s.producer.Writing? {
      forall i | |s.read| <= i < |s.accepted| ensures s'.data[i % n] == s.accepted[i] {
        ProducerSlotIsFree(s, i);
      }
    }
    if step.PutPublish? {
      IndexMovesOn(|s.accepted|, n);
    }
  }

  lemma GetKeeps(s: State, step: Step)
    requires Sound(s) && (step.GetCheck? || step.GetLoad? || step.GetRelease?)
    ensures Sound(Next(s, step))
  {
    ElementsIsUnread(s);
    hide IsPowerOfTwo;
    if step.GetRelease? {
      IndexMovesOn(|s.read|, |s.data|);
    }
  }

  lemma {:induction false} RunSound(s: State, steps: seq<Step>)
    requires Sound(s)
    ensures Sound(Run(s, steps))
    decreases |steps|
  {
    if steps != [] {
      hide Sound;
      if steps[0].PutCheck? || steps[0].PutWrite? || steps[0].PutPublish? {
        PutKeeps(s, steps[0]);
      } else {
        GetKeeps(s, steps[0]);
      }
      RunSound(Next(s, steps[0]), steps[1..]);
    }
  }

  lemma InitSound(buffer: seq<Byte>)
    requires IsPowerOfTwo(|buffer|)
    ensures buffer != [] && Sound(Init(buffer))
  {
    var k: nat :| |buffer| == Pow2(k);
    Remainder(0, |buffer|, 0, 0);
  }

  /** However the two threads interleave, the values got are a prefix of the values put, and at most size - 1
      values are stored. */
  lemma AnyInterleavingIsAQueue(buffer: seq<Byte>, steps: seq<Step>)
    requires IsPowerOfTwo(|buffer|)
    ensures buffer != []
    ensures var s := Run(Init(buffer), steps);
            && s.read <= s.accepted
            && Elements(s) == |s.accepted| - |s.read| <= |buffer| - 1
            && (s.consumer.Releasing? ==> s.read + [s.consumer.c] <= s.accepted)
  {
    InitSound(buffer);
    RunSound(Init(buffer), steps);
    ElementsIsUnread(Run(Init(buffer), steps));
  }

  /** No step overwrites the slot of a value that is not yet read. */
  lemma UnreadSlotsKept(buffer: seq<Byte>, steps: seq<Step>, step: Step, i: nat)
    requires IsPowerOfTwo(|buffer|)
    ensures buffer != []
    ensures var s := Run(Init(buffer), steps);
            |s.read| <= i < |s.accepted| ==> Next(s, step).data[i % |buffer|] == s.data[i % |buffer|]
  {
    InitSound(buffer);
    RunSound(Init(buffer), steps);
    var s := Run(Init(buffer), steps);
    if |s.read| <= i < |s.accepted| {
      ProducerSlotIsFree(s, i);
    }
  }

  /** A put is refused exactly when size - 1 values are unread at its check, a get exactly when none is. */
  lemma RefusedExactly(buffer: seq<Byte>, steps: seq<Step>, c: Byte)
    requires IsPowerOfTwo(|buffer|)
    ensures buffer != []
    ensures var s := Run(Init(buffer), steps);
            && (s.producer.PutIdle? ==>
                  (Next(s, PutCheck(c)).producer.PutIdle? <==> |s.accepted| - |s.read| == |buffer| - 1))
            && (s.consumer.GetIdle? ==>
                  (Next(s, GetCheck).consumer.GetIdle? <==> s.read == s.accepted))
  {
    InitSound(buffer);
    RunSound(Init(buffer), steps);
    ElementsIsUnread(Run(Init(buffer), steps));
  }

  // ---------------------------------------------------------------- other sizes lose values

  /** One whole ringbuf_put. */
  function WholePut(c: Byte): seq<Step> {
    [PutCheck(c), PutWrite, PutPublish]
  }

  function Puts(c: Byte, count: nat): seq<Step> {
    if count == 0 then [] else Puts(c, count - 1) + WholePut(c)
  }

  lemma {:induction false} RunAppend(s: State, a: seq<Step>, b: seq<Step>)
    requires Shape(s)
    ensures Run(s, a + b) == Run(Run(s, a), b)
    decreases |a|
  {
    if a == [] {
      assert a + b == b;
    } else {
      assert (a + b)[0] == a[0] && (a + b)[1..] == a[1..] + b;
      RunAppend(Next(s, a[0]), a[1..], b);
    }
  }

  /** The lowest zero bit of a mask. */
  function LowestZero(mask: nat): nat {
    if mask % 2 == 0 then 0 else 1 + LowestZero(mask / 2)
  }

  lemma AndOfZero(mask: nat)
    ensures And(0, mask) == 0
  {
  }

  /** Below that bit the mask changes nothing; that bit itself is masked away. */
  lemma {:induction false} LowestZeroBit(mask: nat, x: nat)
    ensures Pow2(LowestZero(mask)) <= mask + 1
    ensures x < Pow2(LowestZero(mask)) ==> And(x, mask) == x
    ensures And(Pow2(LowestZero(mask)), mask) == 0
  {
    if mask % 2 == 0 {
      AndOfZero(mask / 2);
      AndOfZero(mask);
    } else {
      LowestZeroBit(mask / 2, x / 2);
    }
  }

  /** Only in a mask that is not all ones does the lowest zero lie below the top. */
  lemma {:induction false} GapInMask(mask: nat)
    ensures Pow2(LowestZero(mask)) == mask + 1 <==> IsPowerOfTwo(mask + 1)
  {
    if IsPowerOfTwo(mask + 1) && mask % 2 == 1 {
      var k: nat :| mask + 1 == Pow2(k);
      assert mask / 2 + 1 == Pow2(k - 1);
      GapInMask(mask / 2);
    }
  }

  /** With a mask that has a gap, putting comes back to slot 0 before the buffer looks full. */
  lemma {:induction false} PutsComeRound(buffer: seq<Byte>, c: Byte, count: nat)
    requires buffer != [] && count <= Pow2(LowestZero(|buffer| - 1)) <= |buffer| - 1
    ensures var s := Run(Init(buffer), Puts(c, count));
            && s.put == (if count == Pow2(LowestZero(|buffer| - 1)) then 0 else count) && s.get == 0
            && s.producer == PutIdle && s.consumer == GetIdle && |s.accepted| == count && s.read == []
  {
    if count != 0 {
      PutsComeRound(buffer, c, count - 1);
      RunAppend(Init(buffer), Puts(c, count - 1), WholePut(c));
      hide Run;
      PutGoesOn(Run(Init(buffer), Puts(c, count - 1)), c);
    }
  }

  lemma PutGoesOn(s: State, c: Byte)
    requires Shape(s) && s.producer == PutIdle && s.get == 0 && s.put < Pow2(LowestZero(s.mask)) <= s.mask
    ensures Run(s, WholePut(c)) ==
            s.(data := s.data[s.put := c], put := if s.put + 1 == Pow2(LowestZero(s.mask)) then 0 else s.put + 1,
               accepted := s.accepted + [c])
  {
    hide And, LowestZero, Pow2, Run;
    WholePutRuns(s, c);
    LowestZeroBit(s.mask, s.put);
    LowestZeroBit(s.mask, s.put + 1);
  }

  lemma WholePutRuns(s: State, c: Byte)
    requires Shape(s) && s.producer == PutIdle
    ensures Run(s, WholePut(c)) ==
            if Elements(s) == s.mask then s
            else s.(data := s.data[s.put := c], put := And(s.put + 1, s.mask), accepted := s.accepted + [c])
  {
    var s1 := Next(s, PutCheck(c));
    var s2 := Next(s1, PutWrite);
    assert Run(s, WholePut(c)) == Run(s1, [PutWrite, PutPublish]) == Run(s2, [PutPublish]) == Next(s2, PutPublish);
  }

  /** In every run, a get finds a value whenever one is unread. */
  ghost predicate NothingLost(buffer: seq<Byte>)
    requires buffer != []
  {
    forall steps :: var s := Run(Init(buffer), steps);
                    s.consumer.GetIdle? && s.read != s.accepted ==> Next(s, GetCheck).consumer.Loading?
  }

  /** The buffer works exactly for the sizes that are powers of two; with any other size a producer alone
      already loses all it put. */
  lemma WorksIffPowerOfTwo(buffer: seq<Byte>)
    requires buffer != []
    ensures NothingLost(buffer) <==> IsPowerOfTwo(|buffer|)
  {
    var mask := |buffer| - 1;
    var count := Pow2(LowestZero(mask));
    if IsPowerOfTwo(|buffer|) {
      forall steps ensures var s := Run(Init(buffer), steps);
                           s.consumer.GetIdle? && s.read != s.accepted ==> Next(s, GetCheck).consumer.Loading? {
        RefusedExactly(buffer, steps, 0);
      }
    } else {
      LowestZeroBit(mask, 0);
      GapInMask(mask);
      PutsComeRound(buffer, 0, count);
      AndOfZero(mask);
      var s := Run(Init(buffer), Puts(0, count));
      assert Elements(s) == 0;
      assert !Next(s, GetCheck).consumer.Loading?;
    }
  }
}

/** source/ringbuf.c in place, proved against RingbufRuns. */
module RingbufObject {
  import opened Wrappers
  import opened RingbufRuns

  class Ringbuf {
    const data: array<Byte>
    const mask: nat
    var putPtr: nat
    var getPtr: nat
    ghost var accepted: seq<Byte>
    ghost var read: seq<Byte>

    /** The buffer between two calls. */
    ghost function View(): State
      reads this, data
    {
      State(data[..], mask, putPtr, getPtr, PutIdle, GetIdle, accepted, read)
    }

    /** The indices are inside the buffer, whatever its size. */
    ghost predicate Valid()
      reads this, data
    {
      Shape(View())
    }

    /** The buffer is the queue it is meant to be. */
    ghost predicate Working()
      reads this, data
    {
      Sound(View())
    }

    /** The values not yet got, oldest first. */
    ghost function Contents(): seq<Byte>
      requires Working()
      reads this, data
    {
      accepted[|read|..]
    }

    /** ringbuf_init; the size of a buffer of 256 bytes is passed as 0, so that its mask is 255 */
    constructor (buffer: array<Byte>)
      requires 1 <= buffer.Length <= 256
      ensures data == buffer && View() == Init(buffer[..]) && Valid()
      ensures Working() <==> IsPowerOfTwo(buffer.Length)
      ensures Working() ==> Contents() == []
    {
      data := buffer;
      mask := buffer.Length - 1;
      putPtr, getPtr, accepted, read := 0, 0, [], [];
      new;
      if IsPowerOfTwo(buffer.Length) {
        InitSound(buffer[..]);
      }
    }

    /** ringbuf_put */
    method Put(c: Byte) returns (ok: bool)
      requires Valid()
      modifies this`putPtr, this`accepted, data
      ensures Valid() && View() == Run(old(View()), WholePut(c))
      ensures ok <==> Elements(old(View())) != mask
      ensures old(Working()) ==> Working()
      ensures old(Working()) ==> ok == (|old(Contents())| < data.Length - 1)
      ensures old(Working()) ==> Contents() == if ok then old(Contents()) + [c] else old(Contents())
    {
      ghost var s := View();
      if Working() {
        QueueKept(s, c);
      }
      WholePutRuns(s, c);
      hide Sound, Run, And, WholePut;
      if And(putPtr - getPtr, mask) == mask {
        return false;
      }
      data[putPtr] := c;
      putPtr := And(putPtr + 1, mask);
      accepted := accepted + [c];
      return true;
    }

    /** ringbuf_get */
    method Get() returns (c: Option<Byte>)
      requires Valid()
      modifies this`getPtr, this`read
      ensures Valid() && View() == Run(old(View()), [GetCheck, GetLoad, GetRelease])
      ensures c == if Elements(old(View())) == 0 then None else Some(data[old(getPtr)])
      ensures old(Working()) ==> Working()
      ensures old(Working()) ==> c == if old(Contents()) == [] then None else Some(old(Contents())[0])
      ensures old(Working()) ==> Contents() == if c == None then old(Contents()) else old(Contents())[1..]
    {
      ghost var s := View();
      if Working() {
        ElementsIsUnread(s);
        RunSound(s, [GetCheck, GetLoad, GetRelease]);
      }
      WholeGetRuns(s);
      hide Run;
      if And(putPtr - getPtr, mask) > 0 {
        var v := data[getPtr];
        getPtr := And(getPtr + 1, mask);
        read := read + [v];
        return Some(v);
      }
      return None;
    }

    /** ringbuf_elements */
    method Count() returns (n: nat)
      requires Valid()
      ensures n == Elements(View())
      ensures Working() ==> n == |Contents()|
    {
      if Working() {
        ElementsIsUnread(View());
      }
      n := And(putPtr - getPtr, mask);
    }

    /** ringbuf_size, which is a uint8_t */
    method Size() returns (n: nat)
      requires Valid()
      ensures n == data.Length % 256
    {
      n := (mask + 1) % 256;
    }
  }

  lemma QueueKept(s: State, c: Byte)
    requires Sound(s) && s.producer == PutIdle
    ensures s.read <= s.accepted && Elements(s) == |s.accepted| - |s.read|
    ensures Sound(Run(s, WholePut(c)))
  {
    hide IsPowerOfTwo, Run;
    ElementsIsUnread(s);
    RunSound(s, WholePut(c));
  }

  lemma WholeGetRuns(s: State)
    requires Shape(s) && s.consumer == GetIdle
    ensures Run(s, [GetCheck, GetLoad, GetRelease]) ==
            if Elements(s) == 0 then s else s.(get := And(s.get + 1, s.mask), read := s.read + [s.data[s.get]])
  {
    var s1 := Next(s, GetCheck);
    var s2 := Next(s1, GetLoad);
    assert Run(s, [GetCheck, GetLoad, GetRelease]) == Run(s1, [GetLoad, GetRelease]) == Run(s2, [GetRelease])
        == Next(s2, GetRelease);
  }
}
