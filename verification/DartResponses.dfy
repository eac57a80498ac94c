/**
 Which received message finishes a pending request: the response with the request's own six low bits, and no other;
 and it does so at once.
 */
module DartResponses {
  import opened Wrappers
  import opened DartFrame
  import opened Timers
  import opened DartProtocol
  import opened DartRuns
  import opened DartStreams
  import opened DartPair
  import opened DartLogs
  import opened DartReceipts

  /** In every run, whenever a request (type 01xxxxxx) is reported done, a message has just been handed on whose first
      byte is 10xxxxxx with the same low bits; its length is reported. */
  lemma DoneAfterResponse(u: Setup, s: Link, inputs: seq<Input>, l: Log, m: Msg, len: nat)
    requires Supported(u.config) && Fresh(s)
    requires Extends(Then(l, TransferDone(m, len)), Run(u, s, inputs).log)
    requires m.data != [] && 0x40 <= m.data[0] < 0x80
    ensures l.Then? && l.event.MessageReceived? && len == |l.event.data|
    ensures l.event.data != [] && l.event.data[0] == m.data[0] + 0x40
  {
    FreshGenuine(u, s, inputs);
    hide Run, Genuine, FrameOf, Content;
    WellSentBefore(u, Then(l, TransferDone(m, len)), Run(u, s, inputs).log);
    assert !AfterAttempt(l);
  }

  /** What an intact frame does beyond being handed on. */
  ghost predicate Finishes(s: Link, m: Msg, data: seq<Byte>, s': Link) {
    && Extends(Then(Then(Then(Then(s.log, Push([ACK])), MessageReceived(data)), TransferDone(m, |data|)), Freed(m.id)),
               s'.log)
    && s'.pending.None? && !Running(s'.responseTimer)
  }

  ghost predicate OnlyHandsOn(s: Link, data: seq<Byte>, s': Link) {
    && s'.log == Then(Then(s.log, Push([ACK])), MessageReceived(data))
    && s'.lists == s.lists && s'.transfering == s.transfering && s'.pending == s.pending
    && s'.responseTimer == s.responseTimer && s'.ackTimer == s.ackTimer && s'.txAttempts == s.txAttempts
  }

  /** The last byte of an intact frame finishes the pending request if the frame is its response, and otherwise leaves
      the request, its timer and the queue alone. */
  lemma FrameFinishesIff(u: Setup, s: Link, a: Arrival)
    requires Supported(u.config) && Sound(s) && Fits(u.config, a) && Intact(u.config, a) && Timely(s)
    requires s.rx == Wire(u.config, a)[..|Wire(u.config, a)| - 1]
    ensures Shaped(s)
    ensures var s' := HandleReceivedChar(u, s, Last(Wire(u.config, a)));
            if s.pending.Some? && a.data != [] && a.data[0] == s.pending.value.Type() + 0x40
            then Finishes(s, s.pending.value, a.data, s')
            else OnlyHandsOn(s, a.data, s')
  {
    SoundParts(s);
    PendingIsRequest(s);
    hide CheckBytes, GetLen, Wire, HandleFrame, Sound, Finishes, OnlyHandsOn;
    var c := u.config;
    var f := Wire(c, a);
    var s1 := Store(s, f[|f| - 1]);
    assert s1.rx == f[..|f|];
    WireFields(c, a, |f|);
    assert HandleReceivedChar(u, s, f[|f| - 1]) == HandleFrame(u, s1, |a.data|);
    IntactHandled(u, s, s1, a);
  }

  lemma PendingIsRequest(s: Link)
    requires Sound(s)
    ensures Shaped(s)
    ensures s.pending.Some? ==> Requests(s.pending.value) && s.pending.value.Type() == s.pending.value.data[0]
  {
  }

  lemma IntactHandled(u: Setup, s: Link, s1: Link, a: Arrival)
    requires Supported(u.config) && Shaped(s) && Intact(u.config, a) && FrameBytes(u.config, |a.data|) <= |s1.rx|
    requires s.pending.Some? ==> Requests(s.pending.value)
    requires s1 == s.(rx := s1.rx, rxTimer := s1.rxTimer, closingTimer := s1.closingTimer)
    requires GetData(u.config, s1.rx, |a.data|) == a.data && GetCheck(u.config, s1.rx, |a.data|) == a.check
    ensures var s' := HandleFrame(u, s1, |a.data|);
            if s.pending.Some? && a.data != [] && a.data[0] == s.pending.value.data[0] + 0x40
            then Finishes(s, s.pending.value, a.data, s')
            else OnlyHandsOn(s, a.data, s')
  {
    hide CheckBytes, FinalizeRequest, Extends;
    FrameType(u.config, s1.rx, |a.data|);
    var s2 := Note(Note(s1, Push([ACK])), MessageReceived(a.data));
    if s.pending.Some? {
      var m := s.pending.value;
      FinalizeEffect(u, Note(s2, TransferDone(m, |a.data|)));
    }
  }

  lemma FinalizeEffect(u: Setup, s: Link)
    requires Supported(u.config) && Shaped(s) && s.pending.Some?
    ensures var s' := FinalizeRequest(u, s);
            && Extends(Then(s.log, Freed(s.pending.value.id)), s'.log)
            && s'.pending.None? && !Running(s'.responseTimer)
  {
    hide TriggerNext, Extends;
    var s1 := Note(s, Freed(s.pending.value.id)).(responseTimer := STOPPED, pending := None);
    TriggerTransferGrows(u, s1);
    KeepsPending(u, s1);
    KeepsResponseTimer(u, s1);
  }

  lemma KeepsResponseTimer(u: Setup, s: Link)
    requires Supported(u.config) && Shaped(s)
    ensures TriggerNext(u, s).responseTimer == s.responseTimer
  {
    hide FrameOf;
  }
}
