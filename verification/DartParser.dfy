/**
 The receiver of a DART link against a parser that reads a whole byte string at once: whatever bytes arrive, in time
 and with anything else the link does in between, what is delivered, answered and left in the buffer is what the
 parser says.
 */
module DartParser {
  import opened Wrappers
  import opened DartFrame
  import opened DartProtocol
  import opened DartRuns
  import opened DartStreams
  import opened DartPair
  import opened DartLogs
  import opened DartReceipts

  /** What the bytes start with, if it is complete. */
  function First(c: Config, bytes: seq<Byte>): Option<Arrival>
    requires Supported(c) && bytes != []
  {
    if bytes[0] != SYNC then Some(Signal(bytes[0]))
    else if |bytes| < HeaderBytes(c) then None
    else
      var n := GetLen(c, bytes);
      if c.rxSize < FrameBytes(c, n) then Some(Oversize(n))
      else if |bytes| < FrameBytes(c, n) then None
      else Some(Arrival(GetData(c, bytes, n), GetCheck(c, bytes, n)))
  }

  /** How many bytes that is. */
  function Length(c: Config, a: Arrival): (n: nat)
    ensures n > 0
  {
    match a
    case Signal(_) => 1
    case Oversize(_) => HeaderBytes(c)
    case Arrival(data, _) => FrameBytes(c, |data|)
  }

  lemma FirstFits(c: Config, bytes: seq<Byte>)
    requires Supported(c) && bytes != [] && First(c, bytes).Some?
    ensures var a := First(c, bytes).value;
            Fits(c, a) && Length(c, a) == |Wire(c, a)| <= |bytes| && Wire(c, a) == bytes[..Length(c, a)]
  {
    if bytes[0] == SYNC {
      var n := GetLen(c, bytes);
      assert LenField(c, n) == bytes[1..HeaderBytes(c)];
      assert [SYNC] + LenField(c, n) == bytes[..HeaderBytes(c)];
    }
  }

  /** Frames, headers and single bytes, one after the other. */
  function Parse(c: Config, bytes: seq<Byte>): seq<Arrival>
    requires Supported(c)
    decreases |bytes|
  {
    if bytes == [] || First(c, bytes).None? then []
    else
      FirstFits(c, bytes);
      [First(c, bytes).value] + Parse(c, bytes[Length(c, First(c, bytes).value)..])
  }

  /** What is left: the beginning of a frame. */
  function Rest(c: Config, bytes: seq<Byte>): seq<Byte>
    requires Supported(c)
    decreases |bytes|
  {
    if bytes == [] || First(c, bytes).None? then bytes
    else
      FirstFits(c, bytes);
      Rest(c, bytes[Length(c, First(c, bytes).value)..])
  }

  lemma {:induction false} ParseIsStream(c: Config, bytes: seq<Byte>)
    requires Supported(c)
    ensures forall a :: a in Parse(c, bytes) ==> Fits(c, a)
    ensures bytes == Stream(c, Parse(c, bytes)) + Rest(c, bytes)
    ensures Rest(c, bytes) != [] ==> First(c, Rest(c, bytes)).None?
    decreases |bytes|
  {
    if bytes == [] || First(c, bytes).None? {
      return;
    }
    FirstFits(c, bytes);
    ParseFirst(c, bytes);
    hide *;
    var a := First(c, bytes).value;
    ParseIsStream(c, bytes[Length(c, a)..]);
    StreamFirst(c, bytes, a, Parse(c, bytes[Length(c, a)..]), Rest(c, bytes));
  }

  lemma StreamFirst(c: Config, bytes: seq<Byte>, a: Arrival, arrivals: seq<Arrival>, rest: seq<Byte>)
    requires Fits(c, a) && forall x :: x in arrivals ==> Fits(c, x)
    requires |Wire(c, a)| <= |bytes| && Wire(c, a) == bytes[..|Wire(c, a)|]
    requires bytes[|Wire(c, a)|..] == Stream(c, arrivals) + rest
    ensures forall x :: x in [a] + arrivals ==> Fits(c, x)
    ensures bytes == Stream(c, [a] + arrivals) + rest
  {
    hide Fits, Wire;
    assert ([a] + arrivals)[1..] == arrivals;
    Grouped(Wire(c, a), Stream(c, arrivals), rest);
    assert bytes == bytes[..|Wire(c, a)|] + bytes[|Wire(c, a)|..];
  }

  lemma ParseFirst(c: Config, bytes: seq<Byte>)
    requires Supported(c) && bytes != [] && First(c, bytes).Some?
    ensures var a := First(c, bytes).value;
            && Length(c, a) <= |bytes|
            && Parse(c, bytes) == [a] + Parse(c, bytes[Length(c, a)..])
            && Rest(c, bytes) == Rest(c, bytes[Length(c, a)..])
  {
    hide First, Length;
    FirstFits(c, bytes);
  }

  /** Something that would fit starts with these bytes. */
  lemma Unfinished(c: Config, bytes: seq<Byte>) returns (a: Arrival)
    requires Supported(c) && bytes != [] && First(c, bytes).None?
    ensures Fits(c, a) && |bytes| < |Wire(c, a)| && Wire(c, a)[..|bytes|] == bytes
  {
    var padded := bytes + seq(c.rxSize + 3, i => 0);
    assert padded[0] == bytes[0] && padded[..|bytes|] == bytes;
    if HeaderBytes(c) <= |bytes| {
      assert GetLen(c, padded) == GetLen(c, bytes);
    }
    a := First(c, padded).value;
    FirstFits(c, padded);
  }

  /** For every byte string that arrives in time: exactly the intact frames the parser finds are delivered, in order,
      exactly they and the damaged ones are answered, exactly its single ACK bytes are read as acknowledges, and what
      the parser leaves is in the buffer. */
  lemma ReceiverIsParser(u: Setup, s: Link, inputs: seq<Input>)
    requires Supported(u.config) && Sound(s) && s.rx == [] && NoTimeout(u, s, inputs)
    ensures var (s', arrivals) := (Run(u, s, inputs), Parse(u.config, Chars(inputs)));
            && Received(s'.log) == Received(s.log) + Delivered(u.config, arrivals)
            && Answers(s'.log) == Answers(s.log) + AnswersTo(u.config, arrivals)
            && AcksRead(u, s, inputs) == AckSignals(arrivals)
            && Corrupted(s'.log) == Corrupted(s.log) + Faults(u.config, arrivals)
            && Incomplete(s'.log) == Incomplete(s.log)
            && s'.rx == Rest(u.config, Chars(inputs))
  {
    var c, bytes := u.config, Chars(inputs);
    var arrivals, rest := Parse(c, bytes), Rest(c, bytes);
    ParseIsStream(c, bytes);
    hide Sound, NoTimeout, Run, Parse, Rest, Chars, AcksRead;
    if rest == [] {
      assert bytes == Stream(c, arrivals);
      StreamDelivered(u, s, inputs, arrivals);
    } else {
      var a := Unfinished(c, rest);
      PartDelivered(u, s, inputs, arrivals, a, |rest|);
    }
  }

  /** The stream ends inside its last item. */
  lemma PartDelivered(u: Setup, s: Link, inputs: seq<Input>, arrivals: seq<Arrival>, a: Arrival, k: nat)
    requires Supported(u.config) && Sound(s) && s.rx == [] && NoTimeout(u, s, inputs)
    requires (forall x :: x in arrivals ==> Fits(u.config, x)) && Fits(u.config, a) && k < |Wire(u.config, a)|
    requires Chars(inputs) == Stream(u.config, arrivals) + Wire(u.config, a)[..k]
    ensures var s' := Run(u, s, inputs);
            && Received(s'.log) == Received(s.log) + Delivered(u.config, arrivals)
            && Answers(s'.log) == Answers(s.log) + AnswersTo(u.config, arrivals)
            && AcksRead(u, s, inputs) == AckSignals(arrivals)
            && Corrupted(s'.log) == Corrupted(s.log) + Faults(u.config, arrivals)
            && Incomplete(s'.log) == Incomplete(s.log)
            && s'.rx == Wire(u.config, a)[..k]
  {
    var c := u.config;
    hide Sound, NoTimeout, Run, Chars, AcksRead, Wire, Fits, Midway, SameTotal, Stream, Delivered, AnswersTo;
    hide AckSignals, DeliveredBy, AnswerTo, AckSignal, Received, Answers, Corrupted, Incomplete, Faults, FaultOf;
    StreamAppend(c, arrivals, a);
    var all, later := arrivals + [a], Wire(c, a)[k..];
    StartsStream(c, s, all);
    Halves(Stream(c, arrivals), Wire(c, a), k);
    var left, k' := RestDelivered(u, s, inputs, all, 0, later);
    assert Last(all) == a;
    ParsedAppend(c, arrivals, [a]);
    OneLeft(c, Run(u, s, inputs), all, left, k', later, k);
    LastTotal(c, s, arrivals, a, Run(u, s, inputs));
    AckSignalsAppend(arrivals, a);
    AckSignalsAppend([], a);
    NoSignals();
  }

  lemma Halves<T>(a: seq<T>, b: seq<T>, k: nat)
    requires k <= |b|
    ensures (a + b[..k]) + b[k..] == a + b
  {
  }

  lemma NoSignals()
    ensures AckSignals([]) == 0 && forall a: Arrival :: [] + [a] == [a]
  {
  }

  /** What is still to come tells what has been read. */
  lemma OneLeft(c: Config, s: Link, all: seq<Arrival>, left: seq<Arrival>, k': nat, later: seq<Byte>, k: nat)
    requires all != [] && |left| <= |all| && left == all[|all| - |left|..] && Midway(c, s, left, k', later)
    requires Fits(c, Last(all)) && k < |Wire(c, Last(all))| && later == Wire(c, Last(all))[k..]
    ensures left == [Last(all)] && k' == k && s.rx == Wire(c, Last(all))[..k]
  {
    hide Wire, Fits;
    if |left| >= 2 {
      LongerStream(c, left);
      assert false;
    }
    assert left != [];
    assert left == [Last(all)] && left[1..] == [];
    assert Stream(c, left) == Wire(c, Last(all)) + [];
  }

  lemma {:induction false} LongerStream(c: Config, left: seq<Arrival>)
    requires |left| >= 2 && forall x :: x in left ==> Fits(c, x)
    ensures Fits(c, left[0]) && Fits(c, Last(left))
    ensures |Wire(c, left[0])| + |Wire(c, Last(left))| <= |Stream(c, left)|
  {
    hide Wire, Fits;
    if |left| == 2 {
      assert left[1..][1..] == [];
      assert Stream(c, left[1..]) == Wire(c, left[1]) + [];
    } else {
      LongerStream(c, left[1..]);
    }
  }

  lemma LastTotal(c: Config, s: Link, arrivals: seq<Arrival>, a: Arrival, s': Link)
    requires SameTotal(c, s, arrivals + [a], s', [a])
    requires Delivered(c, arrivals + [a]) == Delivered(c, arrivals) + DeliveredBy(c, a)
    requires AnswersTo(c, arrivals + [a]) == AnswersTo(c, arrivals) + AnswerTo(c, a)
    requires Faults(c, arrivals + [a]) == Faults(c, arrivals) + Faults(c, [a])
    ensures Corrupted(s'.log) == Corrupted(s.log) + Faults(c, arrivals) && Incomplete(s'.log) == Incomplete(s.log)
    ensures Received(s'.log) == Received(s.log) + Delivered(c, arrivals)
    ensures Answers(s'.log) == Answers(s.log) + AnswersTo(c, arrivals)
  {
    hide DeliveredBy, AnswerTo, Received, Answers, Corrupted, Incomplete, Faults;
    assert [a][1..] == [];
    assert Delivered(c, [a]) == DeliveredBy(c, a) + [] && AnswersTo(c, [a]) == AnswerTo(c, a) + [];
    Grouped(Received(s.log), Delivered(c, arrivals), DeliveredBy(c, a));
    Grouped(Answers(s.log), AnswersTo(c, arrivals), AnswerTo(c, a));
    SameFront(Received(s'.log), Received(s.log) + Delivered(c, arrivals), DeliveredBy(c, a));
    SameFront(Answers(s'.log), Answers(s.log) + AnswersTo(c, arrivals), AnswerTo(c, a));
  }

  lemma SameFront<T>(a: seq<T>, b: seq<T>, c: seq<T>)
    requires a + c == b + c
    ensures a == b
  {
    assert |a| == |b|;
    assert a == (a + c)[..|a|] && b == (b + c)[..|b|];
  }

  // ---------------------------------------------------------------- late bytes

  /** The parser on a run in which bytes may be late: a late byte makes it drop what it has of a frame and start again.
      `sofar` is what has come since it last did. */
  ghost function Heard(u: Setup, s: Link, inputs: seq<Input>, sofar: seq<Byte>): seq<Arrival>
    requires Supported(u.config) && Sound(s)
    decreases |inputs|
  {
    if inputs == [] then Parse(u.config, sofar)
    else
      StepSound(u, s, inputs[0]);
      var s1 := Step(u, s, inputs[0]);
      if !inputs[0].Char? then Heard(u, s1, inputs[1..], sofar)
      else if Timely(s) then Heard(u, s1, inputs[1..], sofar + [inputs[0].ch])
      else Parse(u.config, sofar) + Heard(u, s1, inputs[1..], [inputs[0].ch])
  }

  /** What has come since it last started. */
  ghost function Latest(u: Setup, s: Link, inputs: seq<Input>, sofar: seq<Byte>): seq<Byte>
    requires Supported(u.config) && Sound(s)
    decreases |inputs|
  {
    if inputs == [] then sofar
    else
      StepSound(u, s, inputs[0]);
      var s1 := Step(u, s, inputs[0]);
      if !inputs[0].Char? then Latest(u, s1, inputs[1..], sofar)
      else if Timely(s) then Latest(u, s1, inputs[1..], sofar + [inputs[0].ch])
      else Latest(u, s1, inputs[1..], [inputs[0].ch])
  }

  /** How many bytes were late. */
  ghost function LateBytes(u: Setup, s: Link, inputs: seq<Input>): nat
    requires Supported(u.config) && Sound(s)
    decreases |inputs|
  {
    if inputs == [] then 0
    else
      StepSound(u, s, inputs[0]);
      LateBytes(u, Step(u, s, inputs[0]), inputs[1..]) + if inputs[0].Char? && !Timely(s) then 1 else 0
  }

  lemma {:induction false} ParsedAppend(c: Config, a: seq<Arrival>, b: seq<Arrival>)
    ensures Delivered(c, a + b) == Delivered(c, a) + Delivered(c, b)
    ensures AnswersTo(c, a + b) == AnswersTo(c, a) + AnswersTo(c, b)
    ensures AckSignals(a + b) == AckSignals(a) + AckSignals(b)
    ensures Faults(c, a + b) == Faults(c, a) + Faults(c, b)
    decreases |a|
  {
    hide DeliveredBy, AnswerTo, AckSignal, FaultOf;
    if a == [] {
      assert a + b == b;
    } else {
      assert (a + b)[0] == a[0] && (a + b)[1..] == a[1..] + b;
      ParsedAppend(c, a[1..], b);
      Grouped(DeliveredBy(c, a[0]), Delivered(c, a[1..]), Delivered(c, b));
      Grouped(AnswerTo(c, a[0]), AnswersTo(c, a[1..]), AnswersTo(c, b));
    }
  }

  lemma {:induction false} NoTimeoutMore(u: Setup, s: Link, pre: seq<Input>, i: Input)
    requires Supported(u.config) && Sound(s) && NoTimeout(u, s, pre) && Sound(Run(u, s, pre))
    requires i.Char? ==> Timely(Run(u, s, pre))
    ensures NoTimeout(u, s, pre + [i])
    decreases |pre|
  {
    hide Sound, Step, Timely;
    SoundParts(s);
    if pre == [] {
      assert pre + [i] == [i] && [i][1..] == [];
      StepSound(u, s, i);
      assert NoTimeout(u, Step(u, s, i), []);
    } else {
      assert (pre + [i])[0] == pre[0] && (pre + [i])[1..] == pre[1..] + [i];
      StepSound(u, s, pre[0]);
      NoTimeoutMore(u, Step(u, s, pre[0]), pre[1..], i);
    }
  }

  /** A late byte finds the link as an empty buffer would. */
  function Restarted(s: Link): Link {
    DropFrame(Note(s, TransferIncomplete))
  }

  lemma LateByte(u: Setup, s: Link, ch: Byte)
    requires Supported(u.config) && Sound(s) && !Timely(s)
    ensures var s0 := Restarted(s);
            && Shaped(s) && Sound(s0) && s0.rx == [] && Timely(s0)
            && HandleReceivedChar(u, s0, ch) == HandleReceivedChar(u, s, ch)
            && Received(s0.log) == Received(s.log) && Answers(s0.log) == Answers(s.log)
            && Corrupted(s0.log) == Corrupted(s.log) && Incomplete(s0.log) == Incomplete(s.log) + 1
            && ReadsAck(s0, Char(ch)) == ReadsAck(s, Char(ch))
  {
    hide Sound, HandleFirstChar, HandleFrame, GetLen;
    SoundParts(s);
    NoteSilent(s, TransferIncomplete);
    Untouched(Note(s, TransferIncomplete), Restarted(s));
    SoundParts(Restarted(s));
  }

  /** What a run delivers, answers and reads after a first part in time. */
  ghost predicate Parsed(u: Setup, s0: Link, s': Link, arrivals: seq<Arrival>, acks: nat, late: nat,
                         latest: seq<Byte>)
    requires Supported(u.config)
  {
    && Received(s'.log) == Received(s0.log) + Delivered(u.config, arrivals)
    && Answers(s'.log) == Answers(s0.log) + AnswersTo(u.config, arrivals)
    && acks == AckSignals(arrivals)
    && Corrupted(s'.log) == Corrupted(s0.log) + Faults(u.config, arrivals)
    && Incomplete(s'.log) == Incomplete(s0.log) + late
    && s'.rx == Rest(u.config, latest)
  }

  lemma ParsedOn(u: Setup, s0: Link, s: Link, s1: Link, s': Link, a: seq<Arrival>, b: seq<Arrival>, acks: nat,
                 more: nat, late: nat, latest: seq<Byte>)
    requires Supported(u.config) && Received(s.log) == Received(s1.log) && Answers(s.log) == Answers(s1.log)
    requires Corrupted(s1.log) == Corrupted(s.log) == Corrupted(s0.log) + Faults(u.config, a)
    requires Incomplete(s1.log) == Incomplete(s.log) + 1 == Incomplete(s0.log) + 1
    requires Received(s.log) == Received(s0.log) + Delivered(u.config, a)
    requires Answers(s.log) == Answers(s0.log) + AnswersTo(u.config, a) && acks == AckSignals(a)
    requires Parsed(u, s1, s', b, more, late, latest)
    ensures Parsed(u, s0, s', a + b, acks + more, late + 1, latest)
  {
    ParsedAppend(u.config, a, b);
    hide Rest, Received, Answers, Delivered, AnswersTo, AckSignals, Corrupted, Incomplete, Faults;
    Grouped(Received(s0.log), Delivered(u.config, a), Delivered(u.config, b));
    Grouped(Answers(s0.log), AnswersTo(u.config, a), AnswersTo(u.config, b));
  }

  /** One input unfolded. */
  lemma FirstInput(u: Setup, s: Link, inputs: seq<Input>, sofar: seq<Byte>)
    requires Supported(u.config) && Sound(s) && inputs != []
    ensures Shaped(s) && Sound(Step(u, s, inputs[0]))
    ensures var (i, s1, rest) := (inputs[0], Step(u, s, inputs[0]), inputs[1..]);
            var late := i.Char? && !Timely(s);
            var next := if late then [i.ch] else if i.Char? then sofar + [i.ch] else sofar;
            && Run(u, s, inputs) == Run(u, s1, rest)
            && AcksRead(u, s, inputs) == (if ReadsAck(s, i) then 1 else 0) + AcksRead(u, s1, rest)
            && Heard(u, s, inputs, sofar) == (if late then Parse(u.config, sofar) else []) + Heard(u, s1, rest, next)
            && Latest(u, s, inputs, sofar) == Latest(u, s1, rest, next)
            && LateBytes(u, s, inputs) == LateBytes(u, s1, rest) + (if late then 1 else 0)
  {
    hide Sound, Step, Timely, ReadsAck, Parse;
    SoundParts(s);
    StepSound(u, s, inputs[0]);
  }

  lemma NothingHeard(u: Setup, s: Link, sofar: seq<Byte>)
    requires Supported(u.config) && Sound(s)
    ensures Run(u, s, []) == s && AcksRead(u, s, []) == 0 && LateBytes(u, s, []) == 0
    ensures Heard(u, s, [], sofar) == Parse(u.config, sofar) && Latest(u, s, [], sofar) == sofar
  {
  }

  lemma NoInput(u: Setup, s0: Link, pre: seq<Input>)
    requires Supported(u.config) && Sound(s0) && s0.rx == [] && NoTimeout(u, s0, pre) && Sound(Run(u, s0, pre))
    ensures var s := Run(u, s0, pre);
            Parsed(u, s0, Run(u, s, []), Heard(u, s, [], Chars(pre)), AcksRead(u, s0, pre) + AcksRead(u, s, []),
                   LateBytes(u, s, []), Latest(u, s, [], Chars(pre)))
  {
    hide *;
    NothingHeard(u, Run(u, s0, pre), Chars(pre));
    ReceiverIsParser(u, s0, pre);
    ParsedIs(u, s0, Run(u, s0, pre), Parse(u.config, Chars(pre)), AcksRead(u, s0, pre), 0, Chars(pre));
  }

  lemma ParsedIs(u: Setup, s0: Link, s': Link, arrivals: seq<Arrival>, acks: nat, late: nat, latest: seq<Byte>)
    requires Supported(u.config) && Received(s'.log) == Received(s0.log) + Delivered(u.config, arrivals)
    requires Answers(s'.log) == Answers(s0.log) + AnswersTo(u.config, arrivals)
    requires acks == AckSignals(arrivals) && s'.rx == Rest(u.config, latest)
    requires Corrupted(s'.log) == Corrupted(s0.log) + Faults(u.config, arrivals)
    requires Incomplete(s'.log) == Incomplete(s0.log) + late
    ensures Parsed(u, s0, s', arrivals, acks, late, latest)
  {
  }

  lemma {:induction false} RunIsParsed(u: Setup, s0: Link, pre: seq<Input>, inputs: seq<Input>)
    requires Supported(u.config) && Sound(s0) && s0.rx == [] && NoTimeout(u, s0, pre) && Sound(Run(u, s0, pre))
    ensures var s := Run(u, s0, pre);
            Parsed(u, s0, Run(u, s, inputs), Heard(u, s, inputs, Chars(pre)),
                   AcksRead(u, s0, pre) + AcksRead(u, s, inputs), LateBytes(u, s, inputs),
                   Latest(u, s, inputs, Chars(pre)))
    decreases |inputs|
  {
    hide *;
    var s := Run(u, s0, pre);
    if inputs == [] {
      NoInput(u, s0, pre);
      return;
    }
    var i, rest := inputs[0], inputs[1..];
    FirstInput(u, s, inputs, Chars(pre));
    if i.Char? && !Timely(s) {
      ReceiverIsParser(u, s0, pre);
      LateInput(u, s, i);
      RunIsParsed(u, Restarted(s), [i], rest);
      ParsedOn(u, s0, s, Restarted(s), Run(u, Step(u, s, i), rest), Parse(u.config, Chars(pre)),
               Heard(u, Step(u, s, i), rest, [i.ch]), AcksRead(u, s0, pre), AcksRead(u, s, inputs),
               LateBytes(u, Step(u, s, i), rest), Latest(u, Step(u, s, i), rest, [i.ch]));
    } else {
      OneMoreInput(u, s0, pre, i);
      RunIsParsed(u, s0, pre + [i], rest);
      assert [] + Heard(u, Step(u, s, i), rest, Chars(pre + [i])) == Heard(u, Step(u, s, i), rest, Chars(pre + [i]));
    }
  }

  /** A late byte is the first of a run in time from the link with an empty buffer. */
  lemma LateInput(u: Setup, s: Link, i: Input)
    requires Supported(u.config) && Sound(s) && i.Char? && !Timely(s)
    ensures Shaped(s)
    ensures var s1 := Restarted(s);
            && Sound(s1) && s1.rx == [] && NoTimeout(u, s1, [i]) && Run(u, s1, [i]) == Step(u, s, i)
            && Sound(Step(u, s, i)) && Chars([i]) == [i.ch]
            && AcksRead(u, s1, [i]) == (if ReadsAck(s, i) then 1 else 0)
            && Received(s1.log) == Received(s.log) && Answers(s1.log) == Answers(s.log)
            && Corrupted(s1.log) == Corrupted(s.log) && Incomplete(s1.log) == Incomplete(s.log) + 1
  {
    var s1 := Restarted(s);
    LateByte(u, s, i.ch);
    NothingRun(u, s1);
    LateStep(u, s, i);
    assert [] + [i] == [i];
    hide *;
    OneMoreInput(u, s1, [], i);
  }

  lemma NothingRun(u: Setup, s: Link)
    requires Supported(u.config) && Sound(s)
    ensures NoTimeout(u, s, []) && Run(u, s, []) == s && AcksRead(u, s, []) == 0 && Chars([]) == []
  {
  }

  lemma LateStep(u: Setup, s: Link, i: Input)
    requires Supported(u.config) && Sound(s) && Shaped(s) && Shaped(Restarted(s)) && i.Char?
    requires HandleReceivedChar(u, Restarted(s), i.ch) == HandleReceivedChar(u, s, i.ch)
    ensures Step(u, Restarted(s), i) == Step(u, s, i)
  {
  }

  lemma CharsLast(pre: seq<Input>, i: Input)
    ensures Chars(pre + [i]) == if i.Char? then Chars(pre) + [i.ch] else Chars(pre)
  {
    CharsAppend(pre, [i]);
    assert [i][1..] == [];
  }

  lemma OneMoreInput(u: Setup, s0: Link, pre: seq<Input>, i: Input)
    requires Supported(u.config) && Sound(s0) && NoTimeout(u, s0, pre) && Sound(Run(u, s0, pre))
    requires i.Char? ==> Timely(Run(u, s0, pre))
    ensures var s := Run(u, s0, pre);
            && Shaped(s) && Sound(Step(u, s, i)) && Run(u, s0, pre + [i]) == Step(u, s, i)
            && NoTimeout(u, s0, pre + [i])
            && AcksRead(u, s0, pre + [i]) == AcksRead(u, s0, pre) + (if ReadsAck(s, i) then 1 else 0)
            && Chars(pre + [i]) == if i.Char? then Chars(pre) + [i.ch] else Chars(pre)
  {
    hide *;
    NoTimeoutMore(u, s0, pre, i);
    CharsLast(pre, i);
    LastStep(u, s0, pre, i);
    StepSound(u, Run(u, s0, pre), i);
  }

  /** For every run at all from a fresh link, whatever bytes arrive and however late: the receiver is the parser that
      starts again at each late byte. */
  lemma EveryRunIsParsed(u: Setup, s: Link, inputs: seq<Input>)
    requires Supported(u.config) && Fresh(s)
    ensures Sound(s)
    ensures var (s', arrivals) := (Run(u, s, inputs), Heard(u, s, inputs, []));
            && Received(s'.log) == Delivered(u.config, arrivals)
            && Answers(s'.log) == AnswersTo(u.config, arrivals)
            && AcksRead(u, s, inputs) == AckSignals(arrivals)
            && Corrupted(s'.log) == Faults(u.config, arrivals) && Incomplete(s'.log) == LateBytes(u, s, inputs)
            && s'.rx == Rest(u.config, Latest(u, s, inputs, []))
  {
    hide *;
    FreshIdle(u, s);
    RunIsParsed(u, s, [], inputs);
    FreshParsed(u, s, Run(u, s, inputs), Heard(u, s, inputs, []), AcksRead(u, s, inputs), LateBytes(u, s, inputs),
                Latest(u, s, inputs, []));
  }

  lemma FreshIdle(u: Setup, s: Link)
    requires Supported(u.config) && Fresh(s)
    ensures Sound(s) && s.rx == [] && Received(s.log) == [] && Answers(s.log) == []
    ensures Corrupted(s.log) == 0 && Incomplete(s.log) == 0
    ensures NoTimeout(u, s, []) && Run(u, s, []) == s && AcksRead(u, s, []) == 0 && Chars([]) == []
  {
    NothingRun(u, s);
  }

  lemma FreshParsed(u: Setup, s: Link, s': Link, arrivals: seq<Arrival>, acks: nat, late: nat,
                    latest: seq<Byte>)
    requires Supported(u.config) && Received(s.log) == [] && Answers(s.log) == []
    requires Corrupted(s.log) == 0 && Incomplete(s.log) == 0 && Parsed(u, s, s', arrivals, acks, late, latest)
    ensures Corrupted(s'.log) == Faults(u.config, arrivals) && Incomplete(s'.log) == late
    ensures Received(s'.log) == Delivered(u.config, arrivals) && Answers(s'.log) == AnswersTo(u.config, arrivals)
    ensures acks == AckSignals(arrivals) && s'.rx == Rest(u.config, latest)
  {
    assert [] + Delivered(u.config, arrivals) == Delivered(u.config, arrivals);
    assert [] + AnswersTo(u.config, arrivals) == AnswersTo(u.config, arrivals);
  }
}
