/**
 source/core/dart.c in place: the fields of struct dart, changed by one method for each C function. Every
 method is proved to do what the function of the same name in DartProtocol says, so the properties of all
 runs in DartRuns and DartStreams are properties of these methods.
 */
module DartLink {
  import opened Wrappers
  import opened DartFrame
  import opened Timers
  import P = DartProtocol
  import R = DartRuns
  import S = DartStreams
  import Bits
  import Crc

  class Dart {
    const setup: P.Setup
    const rxBuffer: array<Byte>

    var lists: seq<seq<P.Msg>>
    var transfering: Option<nat>
    var pending: Option<P.Msg>
    var wakeupTimer: Timer
    var wakeupAttempts: nat
    var ackTimer: Timer
    var responseTimer: Timer
    var txAttempts: nat
    var rxBytes: nat
    var rxTimer: Timer
    var closingTimer: Timer
    var running: bool
    var wrk: bool
    var rdy: bool
    var now: nat
    var nextId: nat
    ghost var log: P.Log

    ghost function View(): P.Link
      requires rxBytes <= rxBuffer.Length
      reads this, rxBuffer
    {
      P.Link(lists, transfering, pending, wakeupTimer, wakeupAttempts, ackTimer, responseTimer, txAttempts,
             rxBuffer[..rxBytes], rxTimer, closingTimer, running, wrk, rdy, now, nextId, log)
    }

    ghost predicate Valid()
      reads this, rxBuffer
    {
      && Supported(setup.config) && rxBuffer.Length == setup.config.rxSize && rxBytes <= rxBuffer.Length
      && P.Shaped(View())
    }

    /** dart_init */
    constructor (setup: P.Setup, rxBuffer: array<Byte>, wrk: bool, rdy: bool, now: nat)
      requires Supported(setup.config) && rxBuffer.Length == setup.config.rxSize
      ensures Valid() && this.setup == setup && this.rxBuffer == rxBuffer && View() == P.Init(wrk, rdy, now)
    {
      this.setup, this.rxBuffer := setup, rxBuffer;
      lists, transfering, pending := [[], [], []], None, None;
      wakeupTimer, wakeupAttempts := STOPPED, 0;
      ackTimer, responseTimer, txAttempts := STOPPED, STOPPED, 0;
      rxBytes, rxTimer, closingTimer := 0, STOPPED, STOPPED;
      running, this.wrk, this.rdy, this.now, nextId := true, wrk, rdy, now, 0;
      log := P.Empty;
    }

    // -------------------------------------------------------------- framing

    /** dart_calculate_crc over part of a buffer, as the bytes dart_set_crc_value stores */
    method CalculateCheck(buffer: array<Byte>, start: nat, n: nat) returns (check: seq<Byte>)
      requires Supported(setup.config) && start + n <= buffer.Length
      ensures check == CheckBytes(setup.config, buffer[start..start + n])
    {
      if setup.config.crcSize == 1 {
        var crc := Crc.CalculateCrc8(buffer, start, n);
        check := [Bits.ToByte(crc)];
      } else {
        var crc := Crc.CalculateCrc16(buffer, start, n);
        check := [Bits.ToByte(Bits.High(crc)), Bits.ToByte(Bits.Low(crc))];
      }
    }

    /** dart_push_frame: composes the frame in a fresh buffer and sends it. */
    method PushFrame(data: seq<Byte>)
      requires Supported(setup.config)
      modifies this`log
      ensures log == P.Then(old(log), P.Push(P.FrameOf(setup.config, data)))
    {
      hide CheckBytes;
      var c := setup.config;
      var n := |data| % LenLimit(c);
      var h := HeaderBytes(c);
      var buffer := new Byte[FrameBytes(c, n)];
      ComposeHead(buffer, data[..n]);
      ghost var head := buffer[..h + n];
      var check := CalculateCheck(buffer, h, n);
      forall i | 0 <= i < c.crcSize {
        buffer[h + n + i] := check[i];
      }
      assert buffer[..] == head + check;
      log := P.Then(log, P.Push(buffer[..]));
    }

    /** The sync byte, the length field and the data of a frame. */
    method ComposeHead(buffer: array<Byte>, data: seq<Byte>)
      requires Supported(setup.config) && |data| < LenLimit(setup.config)
      requires buffer.Length == FrameBytes(setup.config, |data|)
      modifies buffer
      ensures buffer[..HeaderBytes(setup.config) + |data|] == [SYNC] + LenField(setup.config, |data|) + data
      ensures buffer[HeaderBytes(setup.config)..HeaderBytes(setup.config) + |data|] == data
    {
      var h := HeaderBytes(setup.config);
      var lenField := LenField(setup.config, |data|);
      buffer[0] := SYNC;
      forall i | 0 <= i < setup.config.lenSize {
        buffer[1 + i] := lenField[i];
      }
      assert buffer[..h] == [SYNC] + lenField;
      forall i | 0 <= i < |data| {
        buffer[h + i] := data[i];
      }
      assert buffer[..h] == [SYNC] + lenField;
      assert buffer[h..h + |data|] == data;
      assert buffer[..h + |data|] == buffer[..h] + buffer[h..h + |data|];
    }

    /** dart_transfer_msg */
    method TransferMsg(m: P.Msg)
      requires Valid()
      modifies this`log, this`ackTimer
      ensures Valid() && View() == P.TransferMsg(setup, old(View()), m)
    {
      hide P.FrameOf;
      log := P.Then(log, P.Attempt(m));
      var content := m.data;
      if |m.data| == 1 && setup.deferred(m.data[0]).Some? {
        content := setup.deferred(m.data[0]).value;
      }
      PushFrame(content);
      ackTimer := Timer(now, P.ACK_TIMER);
    }

    // -------------------------------------------------------------- sending

    /** dart_find_next_message_queue */
    method FindNext() returns (list: Option<nat>)
      requires Valid()
      ensures list == P.FindNext(View())
    {
      for i := 0 to P.PRIO_LENGTH
        invariant forall j :: 0 <= j < i ==> !P.Sendable(View(), j)
      {
        if |lists[i]| > 0 {
          var m := lists[i][0];
          if pending.Some? && P.IsRequest(m.Type()) {
            continue;
          }
          return Some(i);
        }
      }
      list := None;
    }

    /** The wake-up part of dart_trigger_transfer */
    method RaiseWrk() returns (ok: bool)
      requires Valid()
      modifies this`log, this`wakeupAttempts, this`wakeupTimer, this`wrk
      ensures Valid() && (ok <==> P.RaiseWrk(old(View())).Some?)
      ensures View() == if ok then P.RaiseWrk(old(View())).value
                        else P.Note(old(View()).(wakeupAttempts := 0), P.TransferImpossible)
    {
      if !wrk {
        var attempts := wakeupAttempts;
        wakeupAttempts := wakeupAttempts + 1;
        if attempts < P.WAKEUP_ATTEMPTS {
          wrk := true;
          if !Running(wakeupTimer) {
            wakeupTimer := Timer(now, P.WAKEUP_TIMER);
          }
        } else {
          wakeupAttempts := 0;
          log := P.Then(log, P.TransferImpossible);
          return false;
        }
      }
      ok := true;
    }

    /** The part of dart_trigger_transfer that puts list p in flight */
    method StartTransfer(p: nat)
      requires Valid() && p < P.PRIO_LENGTH && View().lists[p] != []
      modifies this`log, this`ackTimer, this`transfering, this`wakeupAttempts, this`wakeupTimer, this`txAttempts,
               this`closingTimer
      ensures Valid() && View() == P.StartTransfer(setup, old(View()), p)
    {
      hide P.TransferMsg, View;
      var m := MarkStarted(p);
      ClearAttempts();
      TransferMsg(m);
    }

    method MarkStarted(p: nat) returns (m: P.Msg)
      requires Valid() && p < P.PRIO_LENGTH && View().lists[p] != []
      modifies this`log, this`transfering
      ensures Valid() && m == old(View()).lists[p][0]
      ensures View() == P.Note(old(View()), P.Started(m.id, old(View()).wrk, old(View()).rdy)).(transfering := Some(p))
    {
      m := lists[p][0];
      transfering := Some(p);
      log := P.Then(log, P.Started(m.id, wrk, rdy));
    }

    /** The fields dart_trigger_transfer resets before the transfer. */
    method ClearAttempts()
      requires Valid()
      modifies this`wakeupAttempts, this`wakeupTimer, this`txAttempts, this`closingTimer
      ensures Valid()
      ensures View() == old(View()).(txAttempts := 0, wakeupAttempts := 0, closingTimer := STOPPED,
                                     wakeupTimer := STOPPED)
    {
      txAttempts := 0;
      wakeupAttempts := 0;
      closingTimer := STOPPED;
      wakeupTimer := STOPPED;
    }

    /** dart_trigger_transfer */
    method TriggerTransfer() returns (status: P.Status)
      requires Valid()
      modifies this`log, this`ackTimer, this`transfering, this`wakeupAttempts, this`wakeupTimer, this`txAttempts,
               this`closingTimer, this`wrk
      ensures Valid() && (View(), status) == P.TriggerTransfer(setup, old(View()))
    {
      hide P.StartTransfer, P.RaiseWrk;
      if transfering.Some? {
        return P.Pending;
      }
      var ok := RaiseWrk();
      if !ok {
        return P.NotPossible;
      }
      if !rdy {
        log := P.Then(log, P.Waiting);
        return P.WaitingForPeer;
      }
      var list := FindNext();
      if list.None? {
        if pending.Some? {
          return P.Pending;
        }
        return P.Nothing;
      }
      StartTransfer(list.value);
      status := P.Success;
    }

    /** dart_trigger_next_transfer */
    method TriggerNext()
      requires Valid()
      modifies this`log, this`ackTimer, this`transfering, this`wakeupAttempts, this`wakeupTimer, this`txAttempts,
               this`closingTimer, this`wrk
      ensures Valid() && View() == P.TriggerNext(setup, old(View()))
    {
      hide P.TriggerTransfer;
      var status := TriggerTransfer();
      if pending.None? && status == P.Nothing {
        log := P.Then(log, P.TransferComplete(P.Outstanding(View()), nextId));
      }
    }

    /** msg_list_pop of the list in flight */
    method Dequeue() returns (m: P.Msg)
      requires Valid() && transfering.Some?
      modifies this`log, this`lists, this`transfering
      ensures Valid() && transfering.None? && View() == P.Dequeue(old(View())) && m == old(lists[transfering.value][0])
    {
      var p := transfering.value;
      m := lists[p][0];
      lists := lists[p := lists[p][1..]];
      transfering := None;
      log := P.Then(log, P.Dequeued(m, p));
    }

    /** dart_finalize_transfer */
    method FinalizeTransfer()
      requires Valid()
      modifies this`log, this`lists, this`transfering
      ensures Valid() && View() == P.FinalizeTransfer(old(View()))
    {
      if transfering.Some? {
        var m := Dequeue();
        log := P.Then(log, P.Freed(m.id));
      }
    }

    /** dart_retry_transfer */
    method RetryTransfer()
      requires Valid()
      modifies this`log, this`ackTimer, this`transfering, this`wakeupAttempts, this`wakeupTimer, this`txAttempts,
               this`closingTimer, this`wrk, this`lists
      ensures Valid() && View() == P.RetryTransfer(setup, old(View()))
    {
      hide P.TransferMsg, P.TriggerNext, P.FinalizeTransfer;
      if transfering.None? {
        return;
      }
      var m := lists[transfering.value][0];
      ackTimer := STOPPED;
      txAttempts := txAttempts + 1;
      if txAttempts < P.TX_ATTEMPTS {
        TransferMsg(m);
      } else {
        log := P.Then(log, P.TransferFailure(m));
        FinalizeTransfer();
        TriggerNext();
      }
    }

    /** The acknowledged request becomes the pending one. */
    method PendRequest()
      requires Valid() && transfering.Some?
      modifies this`log, this`transfering, this`lists, this`pending, this`responseTimer
      ensures Valid() && transfering.None? && P.FinalizeTransfer(View()) == View()
      ensures View() == P.Dequeue(old(View())).(responseTimer := Timer(now, P.RESPONSE_TIMER),
                                                pending := Some(old(lists[transfering.value][0])))
    {
      hide P.Dequeue;
      var request := Dequeue();
      responseTimer := Timer(now, P.RESPONSE_TIMER);
      pending := Some(request);
    }

    /** dart_acknowledge_msg */
    method AcknowledgeMsg()
      requires Valid()
      modifies this`log, this`ackTimer, this`transfering, this`wakeupAttempts, this`wakeupTimer, this`txAttempts,
               this`closingTimer, this`wrk, this`lists, this`pending, this`responseTimer
      ensures Valid() && View() == P.AcknowledgeMsg(setup, old(View()))
    {
      hide P.TriggerNext, P.Dequeue, P.FinalizeTransfer;
      if transfering.None? {
        return;
      }
      var m := lists[transfering.value][0];
      ackTimer := STOPPED;
      if P.IsRequest(m.Type()) {
        PendRequest();
      } else {
        log := P.Then(log, P.TransferDone(m, |m.data|));
      }
      FinalizeTransfer();
      TriggerNext();
    }

    /** dart_finalize_request_msg */
    method FinalizeRequest()
      requires Valid() && pending.Some?
      modifies this`log, this`ackTimer, this`transfering, this`wakeupAttempts, this`wakeupTimer, this`txAttempts,
               this`closingTimer, this`wrk, this`pending, this`responseTimer
      ensures Valid() && View() == P.FinalizeRequest(setup, old(View()))
    {
      hide P.TriggerNext;
      responseTimer := STOPPED;
      log := P.Then(log, P.Freed(pending.value.id));
      pending := None;
      TriggerNext();
    }

    /** dart_abandon_request_msg */
    method AbandonRequest()
      requires Valid()
      modifies this`log, this`ackTimer, this`transfering, this`wakeupAttempts, this`wakeupTimer, this`txAttempts,
               this`closingTimer, this`wrk, this`pending, this`responseTimer
      ensures Valid() && View() == P.AbandonRequest(setup, old(View()))
    {
      hide P.FinalizeRequest;
      if pending.Some? {
        log := P.Then(log, P.MessageAbandoned(pending.value));
        FinalizeRequest();
      }
    }

    // -------------------------------------------------------------- receiving

    /** dart_handle_received_msg */
    method HandleReceivedMsg(data: seq<Byte>, t: Byte)
      requires Valid()
      modifies this`log, this`ackTimer, this`transfering, this`wakeupAttempts, this`wakeupTimer, this`txAttempts,
               this`closingTimer, this`wrk, this`pending, this`responseTimer
      ensures Valid() && View() == P.HandleReceivedMsg(setup, old(View()), data, t)
    {
      hide P.FinalizeRequest;
      log := P.Then(log, P.MessageReceived(data));
      if pending.None? {
        return;
      }
      if !P.IsResponse(t) {
        return;
      }
      if pending.value.Type() % 64 != t % 64 {
        return;
      }
      log := P.Then(log, P.TransferDone(pending.value, |data|));
      FinalizeRequest();
    }

    /** dart_handle_received_char */
    method HandleReceivedChar(ch: Byte)
      requires Valid() && (if Running(rxTimer) && Expired(rxTimer, now) then 0 else rxBytes) < rxBuffer.Length
      modifies this, rxBuffer
      ensures Valid() && View() == P.HandleReceivedChar(setup, old(View()), ch)
    {
      hide P.HandleFrame, P.HandleFirstChar, P.Store, Expired, GetLen;
      StoreChar(ch);
      if rxBytes == 1 {
        HandleFirstChar(ch);
        return;
      }
      var c := setup.config;
      if rxBytes < HeaderBytes(c) {
        return;
      }
      var n := GetLen(c, rxBuffer[..rxBytes]);
      if FrameBytes(c, n) > c.rxSize {
        log := P.Then(log, P.TransferCorrupted);
        rxTimer := STOPPED;
        rxBytes := 0;
        return;
      }
      if rxBytes < FrameBytes(c, n) {
        return;
      }
      HandleFrame(n);
    }

    /** dart_handle_received_char up to the store into the buffer. */
    method StoreChar(ch: Byte)
      requires Valid() && (if Running(rxTimer) && Expired(rxTimer, now) then 0 else rxBytes) < rxBuffer.Length
      modifies this`log, this`rxTimer, this`rxBytes, this`closingTimer, rxBuffer
      ensures Valid() && View() == P.Store(old(View()), ch)
    {
      hide Expired;
      if Running(rxTimer) && Expired(rxTimer, now) {
        log := P.Then(log, P.TransferIncomplete);
        rxTimer := STOPPED;
        rxBytes := 0;
      }
      closingTimer := STOPPED;
      rxTimer := rxTimer.(start := now);
      rxBuffer[rxBytes] := ch;
      rxBytes := rxBytes + 1;
      assert rxBuffer[..rxBytes] == rxBuffer[..rxBytes - 1] + [ch];
    }

    /** The branch of dart_handle_received_char for the first byte. */
    method HandleFirstChar(ch: Byte)
      requires Valid()
      modifies this
      ensures Valid() && View() == P.HandleFirstChar(setup, old(View()), ch)
    {
      hide P.AcknowledgeMsg, P.RetryTransfer, P.TriggerTransfer;
      if ch == SYNC {
        rxTimer := Timer(now, P.BYTE_TIMER);
        if !wrk {
          wrk := true;
        }
        return;
      }
      if wrk {
        if ch == ACK {
          AcknowledgeMsg();
        } else if ch == BAD {
          RetryTransfer();
        } else if ch == CAN {
          var _ := TriggerTransfer();
        }
      }
      rxBytes := 0;
      rxTimer := STOPPED;
    }

    /** The end of dart_handle_received_char, with the whole frame in the buffer. */
    method HandleFrame(n: nat)
      requires Valid() && FrameBytes(setup.config, n) <= rxBytes
      modifies this
      ensures Valid() && View() == P.HandleFrame(setup, old(View()), n)
    {
      hide P.HandleReceivedMsg, CheckBytes;
      var c := setup.config;
      var h := HeaderBytes(c);
      var received := rxBuffer[h + n..FrameBytes(c, n)];
      assert GetData(c, View().rx, n) == rxBuffer[h..h + n];
      assert GetCheck(c, View().rx, n) == received;
      hide GetData, GetCheck;
      var calculated := CalculateCheck(rxBuffer, h, n);
      if calculated != received {
        log := P.Then(log, P.Push([BAD]));
        log := P.Then(log, P.TransferCorrupted);
      } else {
        log := P.Then(log, P.Push([ACK]));
        HandleReceivedMsg(rxBuffer[h..h + n], rxBuffer[h]);
      }
      rxBytes := 0;
      rxTimer := STOPPED;
    }

    // -------------------------------------------------------------- time and sends

    /** dart_handle_time */
    method HandleTime() returns (status: P.Status)
      requires Valid()
      modifies this
      ensures Valid() && (View(), status) == P.HandleTime(setup, old(View()))
    {
      hide P.AbandonRequest, P.HandleAckTimer, P.TriggerTransfer, P.HandleQuiet, P.FindNext, Expired;
      P.AbandonShaped(setup, View());
      if pending.Some? {
        if Expired(responseTimer, now) {
          AbandonRequest();
        }
      }
      if transfering.Some? {
        HandleAckTimer();
      } else {
        var list := FindNext();
        if list.Some? {
          if Expired(wakeupTimer, now) {
            wakeupTimer := STOPPED;
            wrk := false;
            return P.WaitingForPeer;
          } else {
            status := TriggerTransfer();
            return;
          }
        } else if pending.None? && rxBytes == 0 {
          status := HandleQuiet();
          return;
        }
      }
      status := P.Pending;
    }

    /** The part of dart_handle_time for a transfer in progress. */
    method HandleAckTimer()
      requires Valid()
      modifies this`log, this`ackTimer, this`transfering, this`wakeupAttempts, this`wakeupTimer, this`txAttempts,
               this`closingTimer, this`wrk, this`lists
      ensures Valid() && View() == P.HandleAckTimer(setup, old(View()))
    {
      hide P.RetryTransfer, Expired;
      if Expired(ackTimer, now) {
        ackTimer := STOPPED;
        if rdy {
          RetryTransfer();
        } else {
          transfering := None;
        }
      }
    }

    /** The closing part of dart_handle_time. */
    method HandleQuiet() returns (status: P.Status)
      requires Valid()
      modifies this`log, this`wrk, this`closingTimer
      ensures Valid() && (View(), status) == P.HandleQuiet(old(View()))
    {
      if wrk {
        if Running(closingTimer) {
          if Expired(closingTimer, now) {
            wrk := false;
            closingTimer := Timer(now, P.CHILL_TIMER);
          }
        } else {
          closingTimer := Timer(now, P.CLOSING_TIMER);
        }
      } else {
        if Running(closingTimer) {
          if Expired(closingTimer, now) {
            closingTimer := STOPPED;
            if !rdy {
              log := P.Then(log, P.Idle(P.Outstanding(View()), rxBytes, wrk, rdy));
            }
          }
        } else if rdy {
          wrk := true;
          return P.Pending;
        }
      }
      status := P.Nothing;
    }

    /** dart_send_msg_ex */
    method SendMsg(prio: nat, data: seq<Byte>, memory: bool) returns (status: P.Status)
      requires Valid()
      modifies this
      ensures Valid() && (View(), status) == P.SendMsg(setup, old(View()), prio, data, memory)
    {
      hide P.TriggerTransfer;
      if !running {
        return P.NotPossible;
      }
      var m := P.Msg(nextId, data);
      var p := prio;
      if p == P.PRIO_ANY {
        p := P.GuessPriority(m.Type());
      }
      if p >= P.PRIO_LENGTH {
        return P.NotPossible;
      }
      if !memory {
        return P.NoMemory;
      }
      QueueMsg(m, p);
      status := TriggerTransfer();
    }

    /** msg_queue_push */
    method QueueMsg(m: P.Msg, p: nat)
      requires Valid() && p < P.PRIO_LENGTH
      modifies this`log, this`lists, this`nextId
      ensures Valid()
      ensures View() == P.Note(old(View()), P.Queued(m, p)).(
                          lists := old(View()).lists[p := old(View()).lists[p] + [m]], nextId := old(View()).nextId + 1)
    {
      nextId := nextId + 1;
      lists := lists[p := lists[p] + [m]];
      log := P.Then(log, P.Queued(m, p));
    }

    /** One input from the environment. With a receive buffer that holds a frame header the write index never
        leaves the buffer, and the properties of DartRuns and DartStreams carry over to the object. */
    method Apply(i: R.Input)
      requires Valid() && HeaderBytes(setup.config) <= setup.config.rxSize
      requires R.Sound(View()) && R.Receiving(setup.config, View())
      modifies this, rxBuffer
      ensures Valid() && R.Sound(View()) && R.Receiving(setup.config, View())
      ensures View() == R.Step(setup, old(View()), i)
    {
      hide R.Sound, R.Receiving, P.HandleReceivedChar, P.HandleTime, P.SendMsg;
      S.WriteInside(setup.config, View());
      R.StepSound(setup, View(), i);
      S.StepReceiving(setup, View(), i);
      match i
      case Char(ch) => HandleReceivedChar(ch);
      case Tick => var _ := HandleTime();
      case Clock(ms) => now := (now + ms) % UINT32;
      case Send(prio, data, memory) => var _ := SendMsg(prio, data, memory);
      case SetRdy(level) => rdy := level;
    }
  }
}
