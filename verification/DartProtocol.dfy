/**
 The link protocol of source/core/dart.c on values: three priority queues, one message in flight, one
 request waiting for its response, the retry, wake-up and closing timers and the frame receiver. Every
 function carries the name of the C function it stands for. `log` records what the module did: UART
 output, callbacks, and the marks the properties are about.
 */
module DartProtocol {
  import opened Wrappers
  import opened DartFrame
  import opened Timers
  import MessageQueue

  const BYTE_TIMER := 30
  const CLOSING_TIMER := 50
  const CHILL_TIMER := 100
  const ACK_TIMER := 300
  const WAKEUP_TIMER := 500
  const RESPONSE_TIMER := 3000
  const WAKEUP_ATTEMPTS := 3
  const TX_ATTEMPTS := 3
  const PRIO_LENGTH := MessageQueue.PRIO_LENGTH
  const PRIO_ANY := 4

  /** A queued message: its bytes, the type first, and the number of the send that queued it. */
  datatype Msg = Msg(id: nat, data: seq<Byte>) {
    function Type(): Byte {
      if data == [] then 0 else data[0]
    }
  }

  predicate IsRequest(t: Byte) {
    t / 64 == 1
  }

  predicate IsResponse(t: Byte) {
    t / 64 == 2
  }

  datatype Event =
    | Push(bytes: seq<Byte>)
    | Idle(outstanding: nat, rxBytes: nat, wrk: bool, rdy: bool)
    | Waiting
    | TransferDone(msg: Msg, len: nat)
    | TransferFailure(msg: Msg)
    | TransferComplete(outstanding: nat, queued: nat)
    | TransferIncomplete
    | TransferCorrupted
    | TransferImpossible
    | MessageReceived(data: seq<Byte>)
    | MessageAbandoned(msg: Msg)
    | Queued(msg: Msg, prio: nat)   // msg_queue_push
    | Dequeued(msg: Msg, prio: nat) // msg_list_pop
    | Started(id: nat, wrk: bool, rdy: bool) // a transfer was triggered, with the pins like this
    | Attempt(msg: Msg)             // dart_transfer_msg
    | Freed(id: nat)                // cba_free

  /** The history, newest event outermost. */
  datatype Log = Empty | Then(before: Log, event: Event)

  datatype Status = Success | Pending | WaitingForPeer | Nothing | NotPossible | NoMemory

  datatype Link = Link(
    lists: seq<seq<Msg>>, transfering: Option<nat>, pending: Option<Msg>,
    wakeupTimer: Timer, wakeupAttempts: nat, ackTimer: Timer, responseTimer: Timer, txAttempts: nat,
    rx: seq<Byte>, rxTimer: Timer, closingTimer: Timer, running: bool,
    wrk: bool, rdy: bool, now: nat, nextId: nat, log: Log)

  /** The build and the deferred-message callback: the content it sends for a message that is only a type. */
  datatype Setup = Setup(config: Config, deferred: Byte -> Option<seq<Byte>>)

  function Note(s: Link, e: Event): Link {
    s.(log := Then(s.log, e))
  }

  /** The link as the queue module sees it: three lists, and the one being transferred is not empty. */
  predicate Shaped(s: Link) {
    && |s.lists| == PRIO_LENGTH
    && (s.transfering.Some? ==> s.transfering.value < PRIO_LENGTH && s.lists[s.transfering.value] != [])
  }

  /** Messages queued or awaiting their response. */
  function Outstanding(s: Link): nat
    requires Shaped(s)
  {
    |s.lists[0]| + |s.lists[1]| + |s.lists[2]| + if s.pending.Some? then 1 else 0
  }

  function Init(wrk: bool, rdy: bool, now: nat): Link {
    Link([[], [], []], None, None, STOPPED, 0, STOPPED, STOPPED, 0, [], STOPPED, STOPPED, true, wrk, rdy, now, 0, Empty)
  }

  // ---------------------------------------------------------------- sending

  /** Whether dart_find_next_message_queue would pick list i. */
  predicate Sendable(s: Link, i: nat)
    requires Shaped(s) && i < PRIO_LENGTH
  {
    s.lists[i] != [] && !(s.pending.Some? && IsRequest(s.lists[i][0].Type()))
  }

  /** dart_find_next_message_queue */
  function FindNext(s: Link): (r: Option<nat>)
    requires Shaped(s)
    ensures r.Some? ==> r.value < PRIO_LENGTH && Sendable(s, r.value)
    ensures r.Some? ==> forall j :: 0 <= j < r.value ==> !Sendable(s, j)
    ensures r.None? ==> forall j :: 0 <= j < PRIO_LENGTH ==> !Sendable(s, j)
  {
    if Sendable(s, 0) then Some(0) else if Sendable(s, 1) then Some(1) else if Sendable(s, 2) then Some(2) else None
  }

  /** What dart_push_frame sends for data whose length is passed as dart_len_t. */
  function FrameOf(c: Config, data: seq<Byte>): seq<Byte>
    requires Supported(c)
  {
    Frame(c, data[..|data| % LenLimit(c)])
  }

  /** The data dart_transfer_msg frames for a message. */
  function Content(u: Setup, m: Msg): seq<Byte> {
    if |m.data| == 1 && u.deferred(m.data[0]).Some? then u.deferred(m.data[0]).value else m.data
  }

  /** dart_transfer_msg */
  function TransferMsg(u: Setup, s: Link, m: Msg): Link
    requires Supported(u.config)
  {
    Note(Note(s, Attempt(m)), Push(FrameOf(u.config, Content(u, m)))).(ackTimer := Timer(s.now, ACK_TIMER))
  }

  /** The wake-up part of dart_trigger_transfer: raise WRK, at most WAKEUP_ATTEMPTS times in a row. */
  function RaiseWrk(s: Link): Option<Link> {
    if s.wrk then Some(s)
    else if s.wakeupAttempts < WAKEUP_ATTEMPTS then
      Some(s.(wakeupAttempts := s.wakeupAttempts + 1, wrk := true,
              wakeupTimer := if Running(s.wakeupTimer) then s.wakeupTimer else Timer(s.now, WAKEUP_TIMER)))
    else None
  }

  /** The part of dart_trigger_transfer that puts list p in flight. */
  function StartTransfer(u: Setup, s: Link, p: nat): Link
    requires Supported(u.config) && Shaped(s) && p < PRIO_LENGTH && s.lists[p] != []
  {
    var m := s.lists[p][0];
    TransferMsg(u, Note(s, Started(m.id, s.wrk, s.rdy)).(transfering := Some(p), txAttempts := 0, wakeupAttempts := 0,
                                           closingTimer := STOPPED, wakeupTimer := STOPPED), m)
  }

  /** dart_trigger_transfer */
  function TriggerTransfer(u: Setup, s: Link): (Link, Status)
    requires Supported(u.config) && Shaped(s)
  {
    if s.transfering.Some? then (s, Pending)
    else if RaiseWrk(s).None? then (Note(s.(wakeupAttempts := 0), TransferImpossible), NotPossible)
    else
      var s1 := RaiseWrk(s).value;
      if !s1.rdy then (Note(s1, Waiting), WaitingForPeer)
      else if FindNext(s1).None? then (s1, if s1.pending.Some? then Pending else Nothing)
      else (StartTransfer(u, s1, FindNext(s1).value), Success)
  }

  /** dart_trigger_next_transfer */
  function TriggerNext(u: Setup, s: Link): Link
    requires Supported(u.config) && Shaped(s)
  {
    var (s1, status) := TriggerTransfer(u, s);
    if s1.pending.None? && status == Nothing then Note(s1, TransferComplete(Outstanding(s1), s1.nextId)) else s1
  }

  /** msg_list_pop of the list in flight, which then no longer is. */
  function Dequeue(s: Link): Link
    requires Shaped(s) && s.transfering.Some?
  {
    var p := s.transfering.value;
    Note(s, Dequeued(s.lists[p][0], p)).(lists := s.lists[p := s.lists[p][1..]], transfering := None)
  }

  /** dart_finalize_transfer */
  function FinalizeTransfer(s: Link): Link
    requires Shaped(s)
  {
    if s.transfering.None? then s else Note(Dequeue(s), Freed(s.lists[s.transfering.value][0].id))
  }

  /** dart_retry_transfer */
  function RetryTransfer(u: Setup, s: Link): Link
    requires Supported(u.config) && Shaped(s)
  {
    if s.transfering.None? then s
    else
      var m := s.lists[s.transfering.value][0];
      var s1 := s.(ackTimer := STOPPED, txAttempts := s.txAttempts + 1);
      if s1.txAttempts < TX_ATTEMPTS then TransferMsg(u, s1, m)
      else TriggerNext(u, FinalizeTransfer(Note(s1, TransferFailure(m))))
  }

  /** dart_acknowledge_msg */
  function AcknowledgeMsg(u: Setup, s: Link): Link
    requires Supported(u.config) && Shaped(s)
  {
    if s.transfering.None? then s
    else
      var m := s.lists[s.transfering.value][0];
      var s1 := s.(ackTimer := STOPPED);
      if IsRequest(m.Type()) then
        TriggerNext(u, Dequeue(s1).(responseTimer := Timer(s.now, RESPONSE_TIMER), pending := Some(m)))
      else TriggerNext(u, FinalizeTransfer(Note(s1, TransferDone(m, |m.data|))))
  }

  /** dart_finalize_request_msg */
  function FinalizeRequest(u: Setup, s: Link): Link
    requires Supported(u.config) && Shaped(s) && s.pending.Some?
  {
    TriggerNext(u, Note(s, Freed(s.pending.value.id)).(responseTimer := STOPPED, pending := None))
  }

  /** dart_abandon_request_msg */
  function AbandonRequest(u: Setup, s: Link): Link
    requires Supported(u.config) && Shaped(s)
  {
    if s.pending.None? then s else FinalizeRequest(u, Note(s, MessageAbandoned(s.pending.value)))
  }

  // ---------------------------------------------------------------- receiving

  /** dart_handle_received_msg; `data` is followed by at least one check byte in the buffer, which is what a
      message without data is read to have as its type. */
  function HandleReceivedMsg(u: Setup, s: Link, data: seq<Byte>, t: Byte): Link
    requires Supported(u.config) && Shaped(s)
  {
    var s1 := Note(s, MessageReceived(data));
    if s1.pending.None? || !IsResponse(t) || s1.pending.value.Type() % 64 != t % 64 then s1
    else FinalizeRequest(u, Note(s1, TransferDone(s1.pending.value, |data|)))
  }

  function DropFrame(s: Link): Link {
    s.(rx := [], rxTimer := STOPPED)
  }

  /** dart_handle_received_char up to the store into the buffer. */
  function Store(s: Link, ch: Byte): Link {
    var s1 := if Running(s.rxTimer) && Expired(s.rxTimer, s.now) then DropFrame(Note(s, TransferIncomplete)) else s;
    s1.(closingTimer := STOPPED, rxTimer := s1.rxTimer.(start := s1.now), rx := s1.rx + [ch])
  }

  /** The answer to the first byte of a message or to a single-byte signal. */
  function HandleFirstChar(u: Setup, s: Link, ch: Byte): Link
    requires Supported(u.config) && Shaped(s)
  {
    if ch == SYNC then s.(rxTimer := Timer(s.now, BYTE_TIMER), wrk := true)
    else
      var s1 := if !s.wrk then s
                else if ch == ACK then AcknowledgeMsg(u, s)
                else if ch == BAD then RetryTransfer(u, s)
                else if ch == CAN then TriggerTransfer(u, s).0
                else s;
      DropFrame(s1)
  }

  /** A frame whose last byte has arrived. */
  function HandleFrame(u: Setup, s: Link, n: nat): Link
    requires Supported(u.config) && Shaped(s) && FrameBytes(u.config, n) <= |s.rx|
  {
    var c := u.config;
    var data := GetData(c, s.rx, n);
    if CheckBytes(c, data) != GetCheck(c, s.rx, n) then
      DropFrame(Note(Note(s, Push([BAD])), TransferCorrupted))
    else
      DropFrame(HandleReceivedMsg(u, Note(s, Push([ACK])), data, s.rx[HeaderBytes(c)]))
  }

  /** dart_handle_received_char */
  function HandleReceivedChar(u: Setup, s: Link, ch: Byte): Link
    requires Supported(u.config) && Shaped(s)
  {
    var c := u.config;
    var s1 := Store(s, ch);
    if |s1.rx| == 1 then HandleFirstChar(u, s1, ch)
    else if |s1.rx| < HeaderBytes(c) then s1
    else
      var n := GetLen(c, s1.rx);
      if c.rxSize < FrameBytes(c, n) then DropFrame(Note(s1, TransferCorrupted))
      else if |s1.rx| < FrameBytes(c, n) then s1
      else HandleFrame(u, s1, n)
  }

  // ---------------------------------------------------------------- time and sends

  /** The closing part of dart_handle_time, entered with nothing to send or to wait for. */
  function HandleQuiet(s: Link): (Link, Status)
    requires Shaped(s)
  {
    if s.wrk then
      if Running(s.closingTimer) then
        if Expired(s.closingTimer, s.now) then (s.(wrk := false, closingTimer := Timer(s.now, CHILL_TIMER)), Nothing)
        else (s, Nothing)
      else (s.(closingTimer := Timer(s.now, CLOSING_TIMER)), Nothing)
    else if Running(s.closingTimer) then
      if Expired(s.closingTimer, s.now) then
        var s1 := s.(closingTimer := STOPPED);
        (if s.rdy then s1 else Note(s1, Idle(Outstanding(s1), |s1.rx|, s1.wrk, s1.rdy)), Nothing)
      else (s, Nothing)
    else if s.rdy then (s.(wrk := true), Pending)
    else (s, Nothing)
  }

  /** The part of dart_handle_time for a transfer in progress. */
  function HandleAckTimer(u: Setup, s: Link): Link
    requires Supported(u.config) && Shaped(s)
  {
    if !Expired(s.ackTimer, s.now) then s
    else
      var s1 := s.(ackTimer := STOPPED);
      if s1.rdy then RetryTransfer(u, s1) else s1.(transfering := None)
  }

  /** dart_handle_time */
  function HandleTime(u: Setup, s0: Link): (Link, Status)
    requires Supported(u.config) && Shaped(s0)
  {
    var s := if s0.pending.Some? && Expired(s0.responseTimer, s0.now) then AbandonRequest(u, s0) else s0;
    AbandonShaped(u, s0);
    if s.transfering.Some? then (HandleAckTimer(u, s), Pending)
    else if FindNext(s).Some? then
      if Expired(s.wakeupTimer, s.now) then (s.(wakeupTimer := STOPPED, wrk := false), WaitingForPeer)
      else TriggerTransfer(u, s)
    else if s.pending.None? && s.rx == [] then HandleQuiet(s)
    else (s, Pending)
  }

  /** dart_guess_priority */
  function GuessPriority(t: Byte): nat {
    if t / 64 == 0 then 1 else if IsRequest(t) then 2 else if IsResponse(t) then 0 else PRIO_ANY
  }

  /** dart_send_msg_ex; `memory` says whether the allocation succeeds. */
  function SendMsg(u: Setup, s: Link, prio: nat, data: seq<Byte>, memory: bool): (Link, Status)
    requires Supported(u.config) && Shaped(s)
  {
    var m := Msg(s.nextId, data);
    var p := if prio == PRIO_ANY then GuessPriority(m.Type()) else prio;
    if !s.running || PRIO_LENGTH <= p then (s, NotPossible)
    else if !memory then (s, NoMemory)
    else
      TriggerTransfer(u, Note(s, Queued(m, p)).(lists := s.lists[p := s.lists[p] + [m]], nextId := s.nextId + 1))
  }

  lemma TriggerNextShaped(u: Setup, s: Link)
    requires Supported(u.config) && Shaped(s)
    ensures Shaped(TriggerTransfer(u, s).0) && Shaped(TriggerNext(u, s))
  {
  }

  lemma AbandonShaped(u: Setup, s: Link)
    requires Supported(u.config) && Shaped(s)
    ensures Shaped(AbandonRequest(u, s))
  {
    hide TriggerTransfer, TriggerNext;
    if s.pending.Some? {
      var s1 := Note(s, MessageAbandoned(s.pending.value));
      TriggerNextShaped(u, Note(s1, Freed(s1.pending.value.id)).(responseTimer := STOPPED, pending := None));
    }
  }
}
