/**
 The message pool of a DART link in place: the chunks of the circular buffer allocator with the bytes of the messages
 in them. Played through any history of a link, each message that is queued or awaits its response has its bytes as
 they were sent.
 */
module DartPool {
  import opened Wrappers
  import opened DartFrame
  import opened DartProtocol
  import opened DartRuns
  import opened DartPair
  import opened DartMemory
  import opened CbaRing
  import opened CbaAllocator
  import opened MessageList
  import C = CbaRuns
  import S = Scheduler
  import SchedulerRuns

  /** The chunk at idx has the bytes of the message. */
  ghost predicate Keeps(b: seq<Byte>, r: Ring, idx: nat, m: Msg) {
    exists k :: 0 <= k < |r.Chunks()| && r.Chunks()[k].idx == idx && S.Stored(b, r.Chunks()[k], Mail(0, m.data))
  }

  ghost predicate AllKept(b: seq<Byte>, r: Ring, at: map<nat, nat>, live: map<nat, Msg>) {
    at.Keys == live.Keys && forall id :: id in at ==> Keeps(b, r, at[id], live[id])
  }

  predicate Separate(at: map<nat, nat>) {
    forall x, y :: x in at && y in at && x != y ==> at[x] != at[y]
  }

  /** The chunks that leave the ring or change are not this one. */
  lemma KeepsOn(before: seq<Byte>, after: seq<Byte>, r: Ring, r': Ring, except: int, idx: nat, m: Msg)
    requires Keeps(before, r, idx, m) && SamePayloads(before, after, r, except)
    requires forall k :: 0 <= k < |r.Chunks()| && r.Chunks()[k].idx == idx ==>
               k != except && exists k' :: 0 <= k' < |r'.Chunks()| && r'.Chunks()[k'].idx == idx &&
                                           r.Chunks()[k].len <= r'.Chunks()[k'].len && r'.Chunks()[k'].End() <= |after|
    ensures Keeps(after, r', idx, m)
  {
    var k :| 0 <= k < |r.Chunks()| && r.Chunks()[k].idx == idx && S.Stored(before, r.Chunks()[k], Mail(0, m.data));
    var k' :| 0 <= k' < |r'.Chunks()| && r'.Chunks()[k'].idx == idx &&
              r.Chunks()[k].len <= r'.Chunks()[k'].len && r'.Chunks()[k'].End() <= |after|;
    S.StoredKept(before, after, r, k, r'.Chunks()[k'], Mail(0, m.data), except);
  }

  lemma MallocKeeps(before: seq<Byte>, after: seq<Byte>, r: Ring, len: nat, idx: nat, m: Msg)
    requires Tiled(r) && len < UINT16 && Malloc(r, len).Some? && r.size <= |after|
    requires Keeps(before, r, idx, m) && SamePayloads(before, after, r, -1)
    ensures Keeps(after, Malloc(r, len).value, idx, m)
  {
    MallocEffect(r, len);
    MallocTiled(r, len);
    S.MallocSameSize(r, len);
    var r' := Malloc(r, len).value;
    hide Tiled, Malloc, Keeps;
    forall k | 0 <= k < |r.Chunks()| && r.Chunks()[k].idx == idx
      ensures exists k' :: 0 <= k' < |r'.Chunks()| && r'.Chunks()[k'].idx == idx &&
                           r.Chunks()[k].len <= r'.Chunks()[k'].len && r'.Chunks()[k'].End() <= |after|
    {
      ChunkInside(r', k);
      assert r'.Chunks()[k].idx == idx;
    }
    KeepsOn(before, after, r, r', -1, idx, m);
  }

  lemma FreeKeeps(before: seq<Byte>, after: seq<Byte>, r: Ring, k: nat, idx: nat, m: Msg)
    requires Tiled(r) && k < |r.Chunks()| && r.size <= |after| && idx != r.Chunks()[k].idx && idx in C.Bound(r.Chunks())
    requires Keeps(before, r, idx, m) && SamePayloads(before, after, r, -1)
    ensures Keeps(after, Free(r, k), idx, m)
  {
    var k' := StillThere(r, k, idx);
    var r' := Free(r, k);
    hide Tiled, Free, Keeps;
    forall j | 0 <= j < |r.Chunks()| && r.Chunks()[j].idx == idx
      ensures exists k' :: 0 <= k' < |r'.Chunks()| && r'.Chunks()[k'].idx == idx &&
                           r.Chunks()[j].len <= r'.Chunks()[k'].len && r'.Chunks()[k'].End() <= |after|
    {
      SameChunk(r, k, k', j);
    }
    KeepsOn(before, after, r, r', -1, idx, m);
  }

  lemma StillThere(r: Ring, k: nat, idx: nat) returns (k': nat)
    requires Tiled(r) && k < |r.Chunks()| && idx != r.Chunks()[k].idx && idx in C.Bound(r.Chunks())
    ensures var r' := Free(r, k);
            k' < |r'.Chunks()| && r'.Chunks()[k'].idx == idx && r'.Chunks()[k'].End() <= r.size
  {
    hide Tiled, Free;
    C.FreeBound(r, k);
    FreeEffect(r, k);
    var r' := Free(r, k);
    assert idx in C.Bound(r'.Chunks());
    k' :| 0 <= k' < |r'.Chunks()| && r'.Chunks()[k'].bound && r'.Chunks()[k'].idx == idx;
    ChunkInside(r', k');
  }

  /** A chunk that stays is the one it was. */
  lemma SameChunk(r: Ring, k: nat, k': nat, j: nat)
    requires Tiled(r) && k < |r.Chunks()| && j < |r.Chunks()| && j != k
    requires k' < |Free(r, k).Chunks()| && Free(r, k).Chunks()[k'].idx == r.Chunks()[j].idx
    ensures Free(r, k).Chunks()[k'] == r.Chunks()[j]
  {
    FreeEffect(r, k);
    C.DistinctStarts(r);
    hide Tiled, Free;
    var cs := r.Chunks()[k := r.Chunks()[k].(bound := false)];
    assert Free(r, k).Chunks()[k'] in cs;
    var i :| 0 <= i < |cs| && cs[i] == Free(r, k).Chunks()[k'];
    assert cs[i].idx == r.Chunks()[i].idx;
  }

  /** A malloc and the copy of a message into the new chunk. */
  lemma QueueKeeps(before: seq<Byte>, mid: seq<Byte>, after: seq<Byte>, r: Ring, m: Msg, at: map<nat, nat>,
                   live: map<nat, Msg>)
    requires Tiled(r) && Malloc(r, Request(m)).Some? && r.size <= |mid| && m.id !in at
    requires AllKept(before, r, at, live) && SamePayloads(before, mid, r, -1)
    requires var r' := Malloc(r, Request(m)).value;
             && r'.Chunks() != [] && SamePayloads(mid, after, r', |r'.Chunks()| - 1)
             && S.Stored(after, Last(r'.Chunks()), Mail(0, m.data)) && Last(r'.Chunks()).idx == r'.Head()
             && forall c :: c in r.Chunks() ==> c.idx != r'.Head()
    ensures var r' := Malloc(r, Request(m)).value;
            AllKept(after, r', at[m.id := r'.Head()], live[m.id := m])
  {
    MallocTiled(r, Request(m));
    var r' := Malloc(r, Request(m)).value;
    hide Tiled, Malloc, Request, SamePayloads, S.Stored;
    NewKept(after, r', m);
    hide Keeps;
    assert AllKept(after, r', at, live) by {
      forall id | id in at ensures Keeps(after, r', at[id], live[id]) {
        OneKept(before, mid, after, r, m, at[id], live[id]);
      }
    }
    AddKept(after, r', at, live, m, r'.Head());
  }

  lemma AddKept(b: seq<Byte>, r: Ring, at: map<nat, nat>, live: map<nat, Msg>, m: Msg, idx: nat)
    requires AllKept(b, r, at, live) && Keeps(b, r, idx, m)
    ensures AllKept(b, r, at[m.id := idx], live[m.id := m])
  {
    hide Keeps;
  }

  lemma NewKept(b: seq<Byte>, r: Ring, m: Msg)
    requires r.Chunks() != [] && S.Stored(b, Last(r.Chunks()), Mail(0, m.data))
    ensures Keeps(b, r, Last(r.Chunks()).idx, m)
  {
    assert r.Chunks()[|r.Chunks()| - 1] == Last(r.Chunks());
  }

  lemma OneKept(before: seq<Byte>, mid: seq<Byte>, after: seq<Byte>, r: Ring, m: Msg, idx: nat, other: Msg)
    requires Tiled(r) && Malloc(r, Request(m)).Some? && r.size <= |mid|
    requires Keeps(before, r, idx, other) && SamePayloads(before, mid, r, -1)
    requires var r' := Malloc(r, Request(m)).value;
             r'.Chunks() != [] && SamePayloads(mid, after, r', |r'.Chunks()| - 1)
    requires forall c :: c in r.Chunks() ==> c.idx != Last(Malloc(r, Request(m)).value.Chunks()).idx
    ensures Keeps(after, Malloc(r, Request(m)).value, idx, other)
  {
    assert exists k :: 0 <= k < |r.Chunks()| && r.Chunks()[k].idx == idx;
    assert |after| == |mid|;
    hide Tiled, Malloc, Request, Keeps, SamePayloads;
    MallocKeeps(before, mid, r, Request(m), idx, other);
    MallocTiled(r, Request(m));
    S.MallocSameSize(r, Request(m));
    CopyKeeps(mid, after, Malloc(r, Request(m)).value, idx, other);
  }

  /** Writing the newest chunk. */
  lemma CopyKeeps(before: seq<Byte>, after: seq<Byte>, r: Ring, idx: nat, m: Msg)
    requires Tiled(r) && r.size <= |after| && r.Chunks() != [] && idx != Last(r.Chunks()).idx
    requires Keeps(before, r, idx, m) && SamePayloads(before, after, r, |r.Chunks()| - 1)
    ensures Keeps(after, r, idx, m)
  {
    hide Tiled, Keeps;
    forall k | 0 <= k < |r.Chunks()| && r.Chunks()[k].idx == idx
      ensures exists k' :: 0 <= k' < |r.Chunks()| && r.Chunks()[k'].idx == idx &&
                           r.Chunks()[k].len <= r.Chunks()[k'].len && r.Chunks()[k'].End() <= |after|
    {
      ChunkInside(r, k);
    }
    KeepsOn(before, after, r, r, |r.Chunks()| - 1, idx, m);
  }

  /** The newest chunk after a malloc. */
  lemma Room(r: Ring, m: Msg)
    requires Tiled(r) && Malloc(r, Request(m)).Some? && SchedulerRuns.MSG_OVERHEAD + |m.data| <= 65532
    ensures var r' := Malloc(r, Request(m)).value;
            && Tiled(r') && r'.size == r.size && r'.Chunks() != [] && Last(r'.Chunks()).idx == r'.Head()
            && Last(r'.Chunks()).End() <= r.size && Request(m) <= Last(r'.Chunks()).len
            && forall c :: c in r.Chunks() ==> c.idx != r'.Head()
  {
    hide Tiled, Malloc;
    var len := Request(m);
    C.MallocBound(r, len);
    MallocEffect(r, len);
    MallocTiled(r, len);
    S.MallocSameSize(r, len);
    ChunkInside(Malloc(r, len).value, |r.Chunks()|);
  }

  /** What is held stays bound, and apart. */
  lemma QueueSound(r: Ring, m: Msg, at: map<nat, nat>)
    requires Tiled(r) && Malloc(r, Request(m)).Some? && m.id !in at && Separate(at) && C.Sound(C.World(r, at.Values))
    ensures var r' := Malloc(r, Request(m)).value;
            var at' := at[m.id := r'.Head()];
            && Separate(at') && C.Sound(C.World(r', at'.Values))
            && Served(Pool(C.World(r, at.Values), at), Queued(m, 0)) == Pool(C.World(r', at'.Values), at')
  {
    hide Tiled, Malloc, Request;
    var w := C.World(r, at.Values);
    C.StepSound(w, C.OpMalloc(Request(m)));
    C.MallocBound(r, Request(m));
    var idx := Malloc(r, Request(m)).value.Head();
    ValuesWith(at, m.id, idx);
    assert idx !in C.Bound(r.Chunks());
    forall x | x in at ensures at[x] != idx {
      assert at[x] in at.Values;
    }
  }

  lemma ReleaseSound(r: Ring, k: nat, id: nat, at: map<nat, nat>)
    requires Tiled(r) && k < |r.Chunks()| && id in at && r.Chunks()[k].idx == at[id]
    requires Separate(at) && C.Sound(C.World(r, at.Values))
    ensures var at' := at - {id};
            && Separate(at') && C.Sound(C.World(Free(r, k), at'.Values))
            && Served(Pool(C.World(r, at.Values), at), Freed(id)) == Pool(C.World(Free(r, k), at'.Values), at')
  {
    hide Tiled, Free;
    var w := C.World(r, at.Values);
    C.DistinctStarts(r);
    assert at[id] in at.Values;
    C.StepSound(w, C.OpFree(at[id]));
    assert C.Find(r.Chunks(), at[id]) == k;
    ValuesWithout(at, id);
  }

  lemma ReleaseKeeps(before: seq<Byte>, after: seq<Byte>, r: Ring, k: nat, id: nat, at: map<nat, nat>,
                     live: map<nat, Msg>)
    requires Tiled(r) && k < |r.Chunks()| && r.size <= |after| && id in at && r.Chunks()[k].idx == at[id]
    requires Separate(at) && C.Sound(C.World(r, at.Values))
    requires AllKept(before, r, at, live) && SamePayloads(before, after, r, -1)
    ensures AllKept(after, Free(r, k), at - {id}, live - {id})
  {
    var at' := at - {id};
    forall x | x in at' ensures Keeps(after, Free(r, k), at'[x], (live - {id})[x]) {
      hide Tiled, Free, Keeps, SamePayloads;
      assert at[x] in at.Values;
      FreeKeeps(before, after, r, k, at[x], live[x]);
    }
  }

  /** What the link holds of its allocator: a pointer for each message that is queued or awaits its response. */
  class MessagePool {
    const cba: Cba
    var at: map<nat, nat>
    ghost var live: map<nat, Msg>

    ghost function View(): Pool
      reads this, cba
    {
      Pool(C.World(cba.ring, at.Values), at)
    }

    ghost predicate Valid()
      reads this, cba, cba.buffer
    {
      && cba.Valid() && C.Sound(View().world) && Separate(at)
      && AllKept(cba.buffer[..], cba.ring, at, live)
    }

    constructor (buffer: array<Byte>)
      requires buffer.Length <= MAX_SIZE
      ensures Valid() && View() == Pool(C.Start(buffer.Length), map[]) && live == map[]
      ensures cba.buffer == buffer && fresh(cba)
    {
      hide Tiled, AllEncoded;
      cba := new Cba(buffer);
      at, live := map[], map[];
    }

    /** msg_ptr_malloc and the copy of dart_send_msg_ex */
    method Queue(m: Msg) returns (ok: bool)
      requires Valid() && m.id !in at && SchedulerRuns.MSG_OVERHEAD + |m.data| <= 65532
      modifies this, cba, cba.buffer
      ensures Valid()
      ensures ok <==> Malloc(old(cba.ring), Request(m)).Some?
      ensures View() == if ok then Served(old(View()), Queued(m, 0)) else old(View())
      ensures live == if ok then old(live)[m.id := m] else old(live)
    {
      hide Tiled, AllEncoded, CbaRing.Malloc, AllKept, C.Sound, Separate;
      ghost var r, before := cba.ring, cba.buffer[..];
      var chunk := cba.Malloc(SchedulerRuns.MSG_OVERHEAD + |m.data|);
      ok := chunk.Some?;
      if !ok {
        return;
      }
      ghost var mid := cba.buffer[..];
      Room(r, m);
      QueueSound(r, m, at);
      cba.Store(chunk.value + SchedulerRuns.MSG_OFFSET, m.data, |cba.ring.Chunks()| - 1);
      QueueKeeps(before, mid, cba.buffer[..], r, m, at, live);
      at, live := at[m.id := chunk.value - HEADER_LEN], live[m.id := m];
    }

    /** msg_ptr_free of a message that is finished */
    method Release(id: nat)
      requires Valid() && id in at
      modifies this, cba, cba.buffer
      ensures Valid() && View() == Served(old(View()), Freed(id)) && live == old(live) - {id}
    {
      hide Tiled, AllEncoded, CbaRing.Free, AllKept, C.Sound, Separate;
      ghost var r, before := cba.ring, cba.buffer[..];
      ghost var k := Place(id);
      cba.Free(Some(at[id] + HEADER_LEN), k);
      ReleaseSound(r, k, id, at);
      ReleaseKeeps(before, cba.buffer[..], r, k, id, at, live);
      at, live := at - {id}, live - {id};
    }

    /** The position of the chunk of a message. */
    ghost function Place(id: nat): (k: nat)
      requires Valid() && id in at
      reads this, cba, cba.buffer
      ensures k < |cba.ring.Chunks()| && cba.ring.Chunks()[k].idx == at[id]
    {
      assert Keeps(cba.buffer[..], cba.ring, at[id], live[id]);
      C.Find(cba.ring.Chunks(), at[id])
    }
  }

  /** The messages that are queued or await their response, by their numbers. */
  ghost function LiveMsgs(l: Log): map<nat, Msg> {
    match l
    case Empty => map[]
    case Then(b, Queued(m, _)) => LiveMsgs(b)[m.id := m]
    case Then(b, Freed(id)) => LiveMsgs(b) - {id}
    case Then(b, _) => LiveMsgs(b)
  }

  lemma {:induction false} SentIsLive(u: Setup, l: Log, m: Msg)
    requires Supported(u.config) && WellSent(u, l) && m in SentMsgs(l) && m.id !in FreedIds(l)
    ensures m.id in LiveMsgs(l) && LiveMsgs(l)[m.id] == m
    decreases l
  {
    hide FrameOf, Content;
    if m in SentMsgs(l.before) {
      SentIsLive(u, l.before, m);
      SentNumbered(u, l.before, m);
    }
  }

  /** In every run these are the messages in the lists and the pending request. */
  lemma QueuedIsLive(u: Setup, s: Link, inputs: seq<Input>, p: nat, m: Msg)
    requires Supported(u.config) && Fresh(s) && p < PRIO_LENGTH && Shaped(Run(u, s, inputs))
    requires var s' := Run(u, s, inputs); m in s'.lists[p] || s'.pending == Some(m)
    ensures var l := Run(u, s, inputs).log; m.id in LiveMsgs(l) && LiveMsgs(l)[m.id] == m
  {
    FreshGenuine(u, s, inputs);
    RunNumbered(u, s, inputs);
    hide Run;
    var s' := Run(u, s, inputs);
    assert m in SentMsgs(s'.log);
    ListedIsLive(s', p, m);
    AllIdsCount(s'.nextId, m.id);
    assert (Live(s') + multiset(Finished(s'.log)))[m.id] == AllIds(s'.nextId)[m.id];
    assert multiset(FreedIds(s'.log))[m.id] == 0;
    SentIsLive(u, s'.log, m);
  }

  lemma ListedIsLive(s: Link, p: nat, m: Msg)
    requires Shaped(s) && p < PRIO_LENGTH && (m in s.lists[p] || s.pending == Some(m))
    ensures m.id in Live(s)
  {
    if m in s.lists[p] {
      var i :| 0 <= i < |s.lists[p]| && s.lists[p][i] == m;
      assert Ids(s.lists[p])[i] == m.id;
      assert m.id in multiset(Ids(s.lists[p]));
    }
  }

  /** No message is so long that the size of its chunk wraps. */
  ghost predicate AllFit(l: Log) {
    l.Then? ==> AllFit(l.before) && (l.event.Queued? ==> SchedulerRuns.MSG_OVERHEAD + |l.event.msg.data| <= 65532)
  }

  lemma NextEvent(size: nat, l: Log)
    requires l.Then? && Numbered(l) && Obtained(size, l) && AllFit(l)
    ensures Numbered(l.before) && Obtained(size, l.before) && AllFit(l.before)
    ensures var (p, p', e) := (Memory(size, l.before), Memory(size, l), l.event);
            && (e.Queued? ==>
                  && e.msg.id !in p.at && SchedulerRuns.MSG_OVERHEAD + |e.msg.data| <= 65532
                  && Malloc(p.world.ring, Request(e.msg)).Some? && p' == Served(p, Queued(e.msg, 0)))
            && (e.Freed? ==> e.id in p.at && p' == Served(p, e))
            && (!e.Queued? && !e.Freed? ==> p' == p)
    ensures LiveMsgs(l) == if l.event.Queued? then LiveMsgs(l.before)[l.event.msg.id := l.event.msg]
                           else if l.event.Freed? then LiveMsgs(l.before) - {l.event.id}
                           else LiveMsgs(l.before)
  {
    hide Tiled, Malloc, C.Sound;
    MemoryOwned(size, l.before);
  }

  method PlayEvent(q: MessagePool, ghost size: nat, l: Log)
    requires q.Valid() && l.Then? && Numbered(l) && Obtained(size, l) && AllFit(l)
    requires q.View() == Memory(size, l.before) && q.live == LiveMsgs(l.before)
    modifies q, q.cba, q.cba.buffer
    ensures q.Valid() && q.View() == Memory(size, l) && q.live == LiveMsgs(l)
  {
    NextEvent(size, l);
    hide *;
    if l.event.Queued? {
      PlayQueued(q, l.event.msg);
    } else if l.event.Freed? {
      q.Release(l.event.id);
    }
  }

  /** The malloc of a message succeeds when the ring says so. */
  method PlayQueued(q: MessagePool, m: Msg)
    requires q.Valid() && m.id !in q.View().at && SchedulerRuns.MSG_OVERHEAD + |m.data| <= 65532
    requires Tiled(q.View().world.ring) && Malloc(q.View().world.ring, Request(m)).Some?
    modifies q, q.cba, q.cba.buffer
    ensures q.Valid() && q.View() == Served(old(q.View()), Queued(m, 0)) && q.live == old(q.live)[m.id := m]
  {
    hide Tiled, CbaRing.Malloc, MessagePool.Valid, Request, Served;
    var ok := q.Queue(m);
  }

  /** The pool after any history of a link: it is the pool of DartMemory, and each message that is live has its bytes
      in a chunk of its own as they were sent. */
  method Play(buffer: array<Byte>, l: Log) returns (q: MessagePool)
    requires buffer.Length <= MAX_SIZE && Numbered(l) && Obtained(buffer.Length, l) && AllFit(l)
    modifies buffer
    ensures q.Valid() && q.cba.buffer == buffer && fresh(q) && fresh(q.cba)
    ensures q.View() == Memory(buffer.Length, l) && q.live == LiveMsgs(l)
    decreases l
  {
    if l.Empty? {
      q := new MessagePool(buffer);
    } else {
      NextEvent(buffer.Length, l);
      hide Tiled, Memory, Served, Numbered, Obtained, AllFit, CbaRing.Malloc, MessagePool.Valid, MessagePool.View;
      q := Play(buffer, l.before);
      PlayEvent(q, buffer.Length, l);
    }
  }
}
