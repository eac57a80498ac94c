/**
 What a DART link reads, from the bytes and the times between them alone: a byte that comes 30 ms or more after the one
 before in the same frame is late, and the frame is dropped.
 */
module DartReading {
  import opened Wrappers
  import opened DartFrame
  import opened Timers
  import opened DartProtocol
  import opened DartRuns
  import opened DartStreams
  import opened DartPair
  import opened DartParser
  import opened DartProgress

  /** The items read, the number of late bytes, and what has come since the last of these. */
  datatype Reading = Reading(arrivals: seq<Arrival>, late: nat, latest: seq<Byte>)

  /** `sofar` has come since the last late byte, and the last byte `since` milliseconds ago. */
  function Read(c: Config, inputs: seq<Input>, sofar: seq<Byte>, since: nat): Reading
    requires Supported(c)
    decreases |inputs|
  {
    if inputs == [] then Reading(Parse(c, sofar), 0, sofar)
    else
      var rest := inputs[1..];
      match inputs[0]
      case Clock(ms) => Read(c, rest, sofar, since + ms)
      case Char(ch) =>
        if Rest(c, sofar) != [] && since % UINT32 >= 30 then
          var r := Read(c, rest, [ch], 0);
          Reading(Parse(c, sofar) + r.arrivals, r.late + 1, r.latest)
        else Read(c, rest, sofar + [ch], 0)
      case _ => Read(c, rest, sofar, since)
  }

  /** The byte timer shows the time since the last byte while a frame is being received. */
  predicate RxTimed(s: Link, since: nat) {
    if s.rx == [] then !Running(s.rxTimer) else s.rxTimer.interval == 30 && Value(s.rxTimer, s.now) == since % UINT32
  }

  lemma CharTimed(u: Setup, s: Link, ch: Byte, since: nat)
    requires Supported(u.config) && Shaped(s) && RxTimed(s, since)
    ensures HandleReceivedChar(u, s, ch).now == s.now ==> RxTimed(HandleReceivedChar(u, s, ch), 0)
  {
    hide HandleFrame, AcknowledgeMsg, RetryTransfer, TriggerTransfer, GetLen;
    var s1 := Store(s, ch);
    if |s1.rx| != 1 && HeaderBytes(u.config) <= |s1.rx| {
      var n := GetLen(u.config, s1.rx);
      if FrameBytes(u.config, n) <= |s1.rx| {
        HandleFrameEmpties(u, s1, n);
      }
    }
  }

  lemma SinceLater(t: Timer, now: nat, since: nat, ms: nat)
    requires Value(t, now) == since % UINT32
    ensures Value(t, (now + ms) % UINT32) == (since + ms) % UINT32
  {
    var v := now - t.start;
    assert (now + ms) % UINT32 == now + ms - UINT32 * ((now + ms) / UINT32);
    SameRemainder((now + ms) % UINT32 - t.start, v + ms, (now + ms) / UINT32);
    assert v == UINT32 * (v / UINT32) + v % UINT32 && since == UINT32 * (since / UINT32) + since % UINT32;
    SameRemainder(v % UINT32 + ms, v + ms, v / UINT32);
    SameRemainder(since % UINT32 + ms, since + ms, since / UINT32);
  }

  function Later(i: Input, since: nat): nat {
    match i
    case Clock(ms) => since + ms
    case Char(_) => 0
    case _ => since
  }

  lemma StepTimed(u: Setup, s: Link, i: Input, since: nat)
    requires Supported(u.config) && Sound(s) && Regular(s) && RxTimed(s, since)
    ensures Shaped(s) && RxTimed(Step(u, s, i), Later(i, since)) && Regular(Step(u, s, i))
  {
    SoundParts(s);
    StepMoves(u, s, i);
    hide Sound, HandleReceivedChar, HandleTime, SendMsg;
    match i
    case Char(ch) => CharTimed(u, s, ch, since);
    case Clock(ms) =>
      if s.rx != [] {
        SinceLater(s.rxTimer, s.now, since, ms);
      }
    case Tick => OtherStepQuiet(u, s, i);
    case Send(_, _, _) => OtherStepQuiet(u, s, i);
    case SetRdy(_) =>
  }

  lemma LateIs(s: Link, since: nat)
    requires RxTimed(s, since)
    ensures !Timely(s) <==> s.rx != [] && since % UINT32 >= 30
  {
  }

  ghost predicate Reads(u: Setup, s: Link, inputs: seq<Input>, sofar: seq<Byte>, r: Reading)
    requires Supported(u.config) && Sound(s)
  {
    && Heard(u, s, inputs, sofar) == r.arrivals && LateBytes(u, s, inputs) == r.late
    && Latest(u, s, inputs, sofar) == r.latest
  }

  lemma {:induction false} ReadIsHeard(u: Setup, s0: Link, pre: seq<Input>, inputs: seq<Input>, since: nat)
    requires Supported(u.config) && Sound(s0) && s0.rx == [] && NoTimeout(u, s0, pre) && Sound(Run(u, s0, pre))
    requires Regular(Run(u, s0, pre)) && RxTimed(Run(u, s0, pre), since)
    ensures Reads(u, Run(u, s0, pre), inputs, Chars(pre), Read(u.config, inputs, Chars(pre), since))
    decreases |inputs|
  {
    hide *;
    var s, sofar := Run(u, s0, pre), Chars(pre);
    if inputs == [] {
      NothingRead(u, s, sofar, since);
      return;
    }
    var i, rest := inputs[0], inputs[1..];
    FirstInput(u, s, inputs, sofar);
    StepTimed(u, s, i, since);
    LateIs(s, since);
    ReceiverIsParser(u, s0, pre);
    FirstRead(u.config, inputs, sofar, since);
    if i.Char? && !Timely(s) {
      LateInput(u, s, i);
      ReadIsHeard(u, Restarted(s), [i], rest, Later(i, since));
      LateRead(u, s, inputs, sofar, since);
    } else {
      OneMoreInput(u, s0, pre, i);
      ReadIsHeard(u, s0, pre + [i], rest, Later(i, since));
      TimelyRead(u, s, inputs, sofar, Chars(pre + [i]), since);
    }
  }

  lemma NothingRead(u: Setup, s: Link, sofar: seq<Byte>, since: nat)
    requires Supported(u.config) && Sound(s)
    ensures Reads(u, s, [], sofar, Read(u.config, [], sofar, since))
  {
    NothingHeard(u, s, sofar);
    hide Sound, Heard, Latest, LateBytes, Parse;
  }

  lemma FirstRead(c: Config, inputs: seq<Input>, sofar: seq<Byte>, since: nat)
    requires Supported(c) && inputs != []
    ensures var (i, rest) := (inputs[0], inputs[1..]);
            var late := i.Char? && Rest(c, sofar) != [] && since % UINT32 >= 30;
            var r := Read(c, rest, if late then [i.ch] else if i.Char? then sofar + [i.ch] else sofar, Later(i, since));
            Read(c, inputs, sofar, since) ==
            if late then Reading(Parse(c, sofar) + r.arrivals, r.late + 1, r.latest) else r
  {
    hide Parse, Rest;
  }

  lemma LateRead(u: Setup, s: Link, inputs: seq<Input>, sofar: seq<Byte>, since: nat)
    requires Supported(u.config) && Sound(s) && inputs != [] && inputs[0].Char? && !Timely(s)
    requires Rest(u.config, sofar) != [] && since % UINT32 >= 30
    requires Shaped(s) && Sound(Step(u, s, inputs[0]))
    requires var (i, rest) := (inputs[0], inputs[1..]);
             Reads(u, Step(u, s, i), rest, [i.ch], Read(u.config, rest, [i.ch], Later(i, since)))
    ensures Reads(u, s, inputs, sofar, Read(u.config, inputs, sofar, since))
  {
    hide Sound, Step, Parse, Rest, Timely;
    FirstInput(u, s, inputs, sofar);
    FirstRead(u.config, inputs, sofar, since);
    hide Heard, Latest, LateBytes, Read;
  }

  lemma TimelyRead(u: Setup, s: Link, inputs: seq<Input>, sofar: seq<Byte>, next: seq<Byte>, since: nat)
    requires Supported(u.config) && Sound(s) && inputs != []
    requires inputs[0].Char? ==> Timely(s) && !(Rest(u.config, sofar) != [] && since % UINT32 >= 30)
    requires Shaped(s) && Sound(Step(u, s, inputs[0]))
    requires next == if inputs[0].Char? then sofar + [inputs[0].ch] else sofar
    requires var (i, rest) := (inputs[0], inputs[1..]);
             Reads(u, Step(u, s, i), rest, next, Read(u.config, rest, next, Later(i, since)))
    ensures Reads(u, s, inputs, sofar, Read(u.config, inputs, sofar, since))
  {
    hide Sound, Step, Parse, Rest, Timely;
    FirstInput(u, s, inputs, sofar);
    FirstRead(u.config, inputs, sofar, since);
    hide Heard, Latest, LateBytes, Read;
    var heard := Heard(u, Step(u, s, inputs[0]), inputs[1..], next);
    assert [] + heard == heard;
  }

  /** For every run of a fresh link: what it delivers, answers, takes for acknowledges and reports as faults is what is
      read from its bytes and the times between them. */
  lemma EveryRunIsRead(u: Setup, s: Link, inputs: seq<Input>)
    requires Supported(u.config) && Fresh(s)
    ensures Sound(s)
    ensures var (l, r) := (Run(u, s, inputs).log, Read(u.config, inputs, [], 0));
            && Received(l) == Delivered(u.config, r.arrivals) && Answers(l) == AnswersTo(u.config, r.arrivals)
            && AcksRead(u, s, inputs) == AckSignals(r.arrivals)
            && Corrupted(l) == Faults(u.config, r.arrivals) && Incomplete(l) == r.late
            && Run(u, s, inputs).rx == Rest(u.config, r.latest)
  {
    FreshTimed(u, s);
    EveryRunIsParsed(u, s, inputs);
    hide *;
    ReadIsHeard(u, s, [], inputs, 0);
    ReadsAre(u, s, inputs, [], Read(u.config, inputs, [], 0));
  }

  lemma ReadsAre(u: Setup, s: Link, inputs: seq<Input>, sofar: seq<Byte>, r: Reading)
    requires Supported(u.config) && Sound(s) && Reads(u, s, inputs, sofar, r)
    ensures Heard(u, s, inputs, sofar) == r.arrivals && LateBytes(u, s, inputs) == r.late
    ensures Latest(u, s, inputs, sofar) == r.latest
  {
  }

  lemma FreshTimed(u: Setup, s: Link)
    requires Supported(u.config) && Fresh(s)
    ensures Sound(s) && s.rx == [] && NoTimeout(u, s, []) && Run(u, s, []) == s && Chars([]) == []
    ensures Regular(s) && RxTimed(s, 0)
  {
  }
}
