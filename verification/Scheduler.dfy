/**
 The message queue of source/core/scheduler.c in place: a linked list of messages whose nodes and bytes
 live in the chunks of the circular buffer allocator. Proved against SchedulerRuns.
 */
module Scheduler {
  import opened Wrappers
  import opened CbaRing
  import opened CbaAllocator
  import opened MessageList
  import R = SchedulerRuns

  /** The message bytes stored in chunk c. */
  ghost predicate Stored(b: seq<Byte>, c: Chunk, mail: Mail) {
    var p := c.idx + HEADER_LEN + R.MSG_OFFSET;
    p + |mail.bytes| <= c.End() <= |b| && Slice(b, p, |mail.bytes|) == mail.bytes
  }

  /** The i-th chunk holds the i-th message. */
  ghost predicate AllStored(b: seq<Byte>, r: Ring, es: seq<R.Entry>) {
    |r.Chunks()| == |es| && forall i :: 0 <= i < |es| ==> Stored(b, r.Chunks()[i], es[i].mail)
  }

  lemma StoredKept(before: seq<Byte>, after: seq<Byte>, r: Ring, k: nat, c: Chunk, mail: Mail, except: int)
    requires SamePayloads(before, after, r, except) && k < |r.Chunks()| && k != except
    requires Stored(before, r.Chunks()[k], mail)
    requires c.idx == r.Chunks()[k].idx && r.Chunks()[k].len <= c.len && c.End() <= |after|
    ensures Stored(after, c, mail)
  {
    var p := c.idx + HEADER_LEN + R.MSG_OFFSET;
    assert forall q :: p <= q < p + |mail.bytes| ==> before[q] == after[q];
  }

  /** A malloc keeps every stored message; the new chunk is added after them. */
  lemma MallocKeepsStored(before: seq<Byte>, after: seq<Byte>, r: Ring, len: nat, es: seq<R.Entry>)
    requires Tiled(r) && len < UINT16 && Malloc(r, len).Some? && r.size <= |before|
    requires AllStored(before, r, es) && SamePayloads(before, after, r, -1)
    ensures var r' := Malloc(r, len).value;
            && Tiled(r') && |r'.Chunks()| == |es| + 1
            && forall i :: 0 <= i < |es| ==> Stored(after, r'.Chunks()[i], es[i].mail)
  {
    MallocEffect(r, len);
    MallocTiled(r, len);
    var r' := Malloc(r, len).value;
    forall i | 0 <= i < |es| ensures Stored(after, r'.Chunks()[i], es[i].mail) {
      ChunkInside(r', i);
      StoredKept(before, after, r, i, r'.Chunks()[i], es[i].mail, -1);
    }
  }

  /** The newest chunk, at addr, has room for the message; the older ones hold theirs. */
  ghost predicate HasRoom(b: seq<Byte>, r: Ring, addr: nat, mail: Mail, es: seq<R.Entry>) {
    && |r.Chunks()| == |es| + 1
    && r.Chunks()[|es|].idx + HEADER_LEN == addr && R.MSG_OVERHEAD + |mail.bytes| <= r.Chunks()[|es|].len
    && r.Chunks()[|es|].End() <= |b|
    && forall i :: 0 <= i < |es| ==> Stored(b, r.Chunks()[i], es[i].mail)
  }

  /** The sender's copy completes the picture. */
  lemma StoreAdds(before: seq<Byte>, after: seq<Byte>, r: Ring, es: seq<R.Entry>, e: R.Entry)
    requires Tiled(r) && r.size <= |before| && |r.Chunks()| == |es| + 1
    requires forall i :: 0 <= i < |es| ==> Stored(before, r.Chunks()[i], es[i].mail)
    requires SamePayloads(before, after, r, |es|) && Stored(after, r.Chunks()[|es|], e.mail)
    ensures AllStored(after, r, es + [e])
  {
    forall i | 0 <= i < |es| ensures Stored(after, r.Chunks()[i], es[i].mail) {
      StoredKept(before, after, r, i, r.Chunks()[i], es[i].mail, |es|);
    }
  }

  /** Freeing the oldest message keeps the others. */
  lemma FreeKeepsStored(before: seq<Byte>, after: seq<Byte>, r: Ring, r': Ring, es: seq<R.Entry>)
    requires Tiled(r) && es != [] && AllStored(before, r, es) && SamePayloads(before, after, r, -1)
    requires r'.Chunks() == r.Chunks()[1..]
    ensures AllStored(after, r', es[1..])
  {
    forall i | 0 <= i < |es| - 1 ensures Stored(after, r'.Chunks()[i], es[1..][i].mail) {
      StoredKept(before, after, r, i + 1, r.Chunks()[i + 1], es[i + 1].mail, -1);
    }
  }

  ghost function EntryOf(n: MsgPtr): R.Entry {
    R.Entry(if HEADER_LEN <= n.addr then n.addr - HEADER_LEN else 0, n.mail)
  }

  ghost function Entries(nodes: seq<MsgPtr>): seq<R.Entry> {
    seq(|nodes|, i requires 0 <= i < |nodes| => EntryOf(nodes[i]))
  }

  lemma EntriesTail(nodes: seq<MsgPtr>)
    ensures Entries(nodes) == [] <==> nodes == []
    ensures nodes != [] ==> Entries(nodes)[0] == EntryOf(nodes[0]) && Entries(nodes[1..]) == Entries(nodes)[1..]
  {
  }

  /** The node says where its message is and whom it is for. */
  ghost predicate Describes(n: MsgPtr) {
    HEADER_LEN <= n.addr && n.length == |n.mail.bytes| && n.receiver == n.mail.receiver
  }

  class Scheduler {
    const cba: Cba
    const messages: MsgList
    ghost var current: MsgPtr?
    ghost var posted: seq<Mail>
    ghost var delivered: seq<Mail>

    ghost function View(): R.Sched
      reads this, cba, messages
    {
      R.Sched(cba.ring, if current == null then None else Some(EntryOf(current)), Entries(messages.contents), posted,
              delivered)
    }

    ghost predicate Valid()
      reads this, cba, cba.buffer, messages, messages.repr
    {
      && cba.Valid() && messages.Valid()
      && current !in messages.contents
      && (current != null ==> Describes(current))
      && (forall n :: n in messages.contents ==> Describes(n))
      && R.InStep(View())
      && AllStored(cba.buffer[..], cba.ring, View().Flight())
    }

    /** scheduler_init */
    constructor (pool: array<Byte>)
      requires pool.Length <= MAX_SIZE
      ensures Valid() && current == null && fresh(cba) && fresh(messages) && cba.buffer == pool
      ensures View() == R.Start(pool.Length)
    {
      cba := new Cba(pool);
      messages := new MsgList();
      current, posted, delivered := null, [], [];
    }

    /** scheduler_malloc and the sender's copy: the message lies in the newest chunk, not yet in the queue. */
    method NewMessage(mail: Mail, ghost es: seq<R.Entry>) returns (msgPtr: MsgPtr?)
      requires cba.Valid() && AllStored(cba.buffer[..], cba.ring, es) && R.MSG_OVERHEAD + |mail.bytes| <= 65532
      modifies cba, cba.buffer
      ensures cba.Valid()
      ensures Malloc(old(cba.ring), R.MallocSize(mail)).None? ==>
                msgPtr == null && cba.ring == old(cba.ring) && cba.buffer[..] == old(cba.buffer[..])
      ensures Malloc(old(cba.ring), R.MallocSize(mail)).Some? ==>
                && msgPtr != null && cba.ring == Malloc(old(cba.ring), R.MallocSize(mail)).value
                && Describes(msgPtr) && EntryOf(msgPtr) == R.Entry(cba.ring.Head(), mail)
                && AllStored(cba.buffer[..], cba.ring, es + [EntryOf(msgPtr)])
      ensures msgPtr != null ==> fresh(msgPtr)
    {
      hide Tiled, AllEncoded, CbaRing.Malloc, AllStored;
      ghost var r, before := cba.ring, cba.buffer[..];
      var chunk := cba.Malloc(R.MSG_OVERHEAD + |mail.bytes|);
      if chunk.None? {
        return null;
      }
      NewChunk(before, cba.buffer[..], r, mail, es);
      var msgType := if mail.bytes == [] then 0 else mail.bytes[0];
      msgPtr := new MsgPtr(chunk.value, mail.receiver, |mail.bytes|, msgType, mail);
      CopyMessage(chunk.value, mail, es, EntryOf(msgPtr));
    }

    /** The memcpy of process_send_msg into the newest chunk. */
    method CopyMessage(addr: nat, mail: Mail, ghost es: seq<R.Entry>, ghost e: R.Entry)
      requires cba.Valid() && HasRoom(cba.buffer[..], cba.ring, addr, mail, es) && e.mail == mail
      modifies cba.buffer
      ensures cba.Valid() && AllStored(cba.buffer[..], cba.ring, es + [e])
    {
      hide AllEncoded;
      ghost var before := cba.buffer[..];
      cba.Store(addr + R.MSG_OFFSET, mail.bytes, |es|);
      StoreAdds(before, cba.buffer[..], cba.ring, es, e);
    }

    /** process_send_msg: malloc, copy, post. False is PROCESS_ERR_NO_MEMORY. */
    method Send(mail: Mail) returns (ok: bool)
      requires Valid() && R.MSG_OVERHEAD + |mail.bytes| <= 65532
      modifies this`posted, cba, cba.buffer, messages, messages.repr
      ensures Valid()
      ensures View() == R.Step(old(View()), R.Send(mail))
      ensures ok <==> Malloc(old(cba.ring), R.MallocSize(mail)).Some?
      ensures fresh(messages.repr - old(messages.repr))
    {
      hide Tiled, AllEncoded, CbaRing.Malloc, R.InStep, AllStored, Cba.Valid;
      ghost var v := View();
      R.SendInStep(v, mail);
      var msgPtr := NewMessage(mail, v.Flight());
      if msgPtr == null {
        return false;
      }
      messages.Push(msgPtr);
      posted := posted + [mail];
      assert Entries(messages.contents) == Entries(old(messages.contents)) + [EntryOf(msgPtr)];
      assert View() == R.Step(v, R.Send(mail));
      ok := true;
    }

    /** scheduler_utilize_message: delivers the oldest message, read back from its chunk, and frees the chunk.
        `sends` is what the receiving threads send meanwhile. */
    method UtilizeMessage(sends: seq<Mail>) returns (got: Option<Mail>)
      requires Valid() && current == null
      requires forall m :: m in sends ==> R.MSG_OVERHEAD + |m.bytes| <= 65532
      modifies this, cba, cba.buffer, messages, messages.repr
      ensures Valid() && current == null
      ensures View() == R.Utilize(old(View()), sends)
      ensures got == if old(View()).queue == [] then None else Some(old(View()).queue[0].mail)
    {
      hide Tiled, AllEncoded, R.InStep, AllStored, MsgList.Valid, Cba.Valid, CbaRing.Malloc, Free;
      ghost var v := View();
      var msgPtr := PopMessage();
      if msgPtr == null {
        return None;
      }
      var at := msgPtr.addr + R.MSG_OFFSET;
      CurrentStored(cba.buffer[..], v.ring, R.Step(v, R.Begin));
      got := Some(Mail(msgPtr.receiver, cba.buffer[at..at + msgPtr.length]));
      for i := 0 to |sends|
        invariant Valid() && current == msgPtr
        invariant View() == R.Run(R.Step(v, R.Begin), R.Sends(sends[..i]))
        invariant fresh(messages.repr - old(messages.repr))
      {
        var ok := Send(sends[i]);
        R.RunAppend(R.Step(v, R.Begin), R.Sends(sends[..i]), R.Send(sends[i]));
        assert R.Sends(sends[..i + 1]) == R.Sends(sends[..i]) + [R.Send(sends[i])];
      }
      assert sends[..|sends|] == sends;
      FreeMessage(msgPtr);
    }

    /** The pop that starts a delivery. */
    method PopMessage() returns (msgPtr: MsgPtr?)
      requires Valid() && current == null
      modifies this`current, this`delivered, messages
      ensures Valid() && current == msgPtr
      ensures msgPtr == null <==> old(View()).queue == []
      ensures msgPtr == null ==> View() == old(View())
      ensures msgPtr != null ==> EntryOf(msgPtr) == old(View()).queue[0] && View() == R.Step(old(View()), R.Begin)
      ensures messages.repr <= old(messages.repr)
    {
      hide Tiled, AllEncoded, R.InStep, AllStored, Cba.Valid, CbaRing.Malloc, Free, Entries;
      ghost var v, nodes := View(), messages.contents;
      EntriesTail(nodes);
      R.BeginInStep(v);
      assert nodes != [] ==> nodes[0] !in nodes[1..];
      msgPtr := messages.Pop();
      hide MsgList.Valid;
      if msgPtr != null {
        current := msgPtr;
        delivered := delivered + [msgPtr.mail];
        assert current !in messages.contents;
        hide Distinct;
        assert View() == R.Step(v, R.Begin);
      }
    }

    /** msg_ptr_free of the oldest message */
    method FreeNode(msgPtr: MsgPtr, ghost es: seq<R.Entry>)
      requires cba.Valid() && cba.PointsTo(Some(msgPtr.addr), 0)
      requires es != [] && AllStored(cba.buffer[..], cba.ring, es)
      requires Free(cba.ring, 0).Chunks() == cba.ring.Chunks()[1..]
      modifies cba, cba.buffer
      ensures cba.Valid() && cba.ring == Free(old(cba.ring), 0)
      ensures AllStored(cba.buffer[..], cba.ring, es[1..])
    {
      hide AllEncoded;
      ghost var r, before := cba.ring, cba.buffer[..];
      cba.Free(Some(msgPtr.addr), 0);
      FreeKeepsStored(before, cba.buffer[..], r, cba.ring, es);
    }

    /** The free that ends a delivery. */
    method FreeMessage(msgPtr: MsgPtr)
      requires Valid() && current == msgPtr
      modifies this`current, cba, cba.buffer
      ensures Valid() && current == null
      ensures View() == R.Step(old(View()), R.End)
    {
      hide Tiled, AllEncoded, AllStored, Free, Cba.Valid, R.InStep;
      ghost var v := View();
      assert v.Flight()[0] == EntryOf(msgPtr);
      R.EndInStep(v);
      FreeNode(msgPtr, v.Flight());
      current := null;
      assert View() == R.Step(v, R.End);
      assert View().Flight() == v.Flight()[1..];
    }
  }

  /** The bytes of the message being delivered. */
  lemma CurrentStored(b: seq<Byte>, r: Ring, v: R.Sched)
    requires R.InStep(v) && v.current.Some? && v.ring == r && AllStored(b, r, v.Flight())
    ensures var p := v.current.value.idx + HEADER_LEN + R.MSG_OFFSET;
            && p + |v.current.value.mail.bytes| <= |b|
            && b[p..p + |v.current.value.mail.bytes|] == v.current.value.mail.bytes
  {
    assert v.Flight()[0] == v.current.value;
    assert Stored(b, r.Chunks()[0], v.Flight()[0].mail);
  }

  /** The chunk of a successful malloc, seen from the sender. */
  lemma NewChunk(before: seq<Byte>, after: seq<Byte>, r: Ring, mail: Mail, es: seq<R.Entry>)
    requires Tiled(r) && r.size <= |before| && R.MSG_OVERHEAD + |mail.bytes| <= 65532
    requires Malloc(r, R.MallocSize(mail)).Some? && AllStored(before, r, es) && SamePayloads(before, after, r, -1)
    ensures var r' := Malloc(r, R.MallocSize(mail)).value;
            HasRoom(after, r', r'.Head() + HEADER_LEN, mail, es)
  {
    hide Tiled, Malloc;
    var len := R.MallocSize(mail);
    MallocKeepsStored(before, after, r, len, es);
    MallocEffect(r, len);
    MallocTiled(r, len);
    MallocSameSize(r, len);
    ChunkInside(Malloc(r, len).value, |es|);
  }

  lemma MallocSameSize(r: Ring, len: nat)
    requires Tiled(r) && Malloc(r, len).Some?
    ensures Malloc(r, len).value.size == r.size
  {
  }
}
